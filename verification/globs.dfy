/** `absoluteSrc`: relative source globs made absolute under the application's base. */
module Globs {
  import opened JsText

  /** The sources argument: one glob, or a list of them. */
  datatype GlobArg = OneGlob(glob: string) | GlobList(globs: seq<string>)

  /** A single glob is wrapped into a one-element list. */
  function GlobsOf(a: GlobArg): (r: seq<string>)
    ensures a.OneGlob? ==> r == [a.glob]
    ensures a.GlobList? ==> r == a.globs
  {
    match a
    case OneGlob(g) => [g]
    case GlobList(gs) => gs
  }

  /** The glob with the one optional leading `.` and then one optional `/` removed. */
  function RelativePart(g: string): (r: string)
    ensures exists k: nat :: LongestPrefixIn(g, k, OptionalDotSlash) && g == g[..k] + r
  {
    var k := OptionalDotSlashLen(g);
    assert g == g[..k] + g[k..];
    g[k..]
  }

  /** `glob.replace(/^\.?\/?/, base + '/')`. The replacement string is expanded as JavaScript
      does, so a `$&`, `$'` or `$$` inside `base` is interpreted rather than copied. */
  function AbsoluteGlob(base: string, g: string): (r: string)
    ensures |RelativePart(g)| <= |r| && r[|r| - |RelativePart(g)|..] == RelativePart(g)
  {
    var k := OptionalDotSlashLen(g);
    Substitute(base + "/", g[..k], g[k..]) + g[k..]
  }

  /** For a base without `$`, the absolute glob is the base, a slash, and the glob's relative part. */
  lemma AbsoluteGlobPlain(base: string, g: string)
    requires NoDollar(base)
    ensures AbsoluteGlob(base, g) == base + "/" + RelativePart(g)
  {
    var k := OptionalDotSlashLen(g);
    NoDollarConcat(base, "/");
  }

  /** `absoluteSrc(globs)` for an application based at `base`. */
  function AbsoluteSrc(base: string, a: GlobArg): (r: seq<string>)
    ensures |r| == |GlobsOf(a)|
    ensures NoDollar(base) ==>
      forall i | 0 <= i < |r| :: r[i] == base + "/" + RelativePart(GlobsOf(a)[i])
  {
    var gs := GlobsOf(a);
    var r := seq(|gs|, i requires 0 <= i < |gs| => AbsoluteGlob(base, gs[i]));
    assert NoDollar(base) ==> forall i | 0 <= i < |r| :: r[i] == base + "/" + RelativePart(gs[i]) by {
      if NoDollar(base) {
        forall i | 0 <= i < |r| ensures r[i] == base + "/" + RelativePart(gs[i]) {
          AbsoluteGlobPlain(base, gs[i]);
        }
      }
    }
    r
  }

  /** A lone glob becomes one absolute glob. */
  lemma AbsoluteSrcOne(base: string, g: string)
    requires NoDollar(base)
    ensures AbsoluteSrc(base, OneGlob(g)) == [base + "/" + RelativePart(g)]
  {
    var r := AbsoluteSrc(base, OneGlob(g));
    assert |r| == 1 && r[0] == base + "/" + RelativePart(g);
  }

  /** A glob starting with neither `.` nor `/` is its own relative part. */
  lemma RelativePartPlain(r: string)
    requires |r| == 0 || (r[0] != '.' && r[0] != '/')
    ensures RelativePart(r) == r
  {
    assert OptionalDotSlashLen(r) == 0;
  }

  /** A lone leading `.` is stripped when no `/` follows it. */
  lemma RelativePartDot(r: string)
    requires |r| == 0 || r[0] != '/'
    ensures RelativePart("." + r) == r
  {
    var g := "." + r;
    assert g[0] == '.';
    assert |r| > 0 ==> g[1] == r[0];
    assert OptionalDotSlashLen(g) == 1;
    assert g[1..] == r;
  }

  /** A leading `./` is stripped. */
  lemma RelativePartDotSlash(r: string)
    ensures RelativePart("./" + r) == r
  {
    var g := "./" + r;
    assert g[0] == '.' && g[1] == '/';
    assert OptionalDotSlashLen(g) == 2;
    assert g[2..] == r;
  }

  /** A leading `/` is stripped. */
  lemma RelativePartSlash(r: string)
    ensures RelativePart("/" + r) == r
  {
    var g := "/" + r;
    assert g[0] == '/';
    assert OptionalDotSlashLen(g) == 1;
    assert g[1..] == r;
  }

  /** The relative part of a glob behind each leading form the pattern strips. */
  lemma RelativePartOfPrefixed(r: string)
    ensures (|r| == 0 || (r[0] != '.' && r[0] != '/')) ==> RelativePart(r) == r
    ensures (|r| == 0 || r[0] != '/') ==> RelativePart("." + r) == r
    ensures RelativePart("./" + r) == r
    ensures RelativePart("/" + r) == r
  {
    if |r| == 0 || (r[0] != '.' && r[0] != '/') { RelativePartPlain(r); }
    if |r| == 0 || r[0] != '/' { RelativePartDot(r); }
    RelativePartDotSlash(r);
    RelativePartSlash(r);
  }

  /** Each leading form the pattern strips: a glob `r` that starts with neither `.` nor `/`
      is put under the base as it is, and so it is behind `./` or `/`; behind a lone `.`,
      any `r` that does not start with `/` (so `../a` keeps `./a`). */
  lemma AbsoluteSrcPrefixes(base: string, r: string)
    requires NoDollar(base)
    ensures (|r| == 0 || (r[0] != '.' && r[0] != '/')) ==> AbsoluteSrc(base, OneGlob(r)) == [base + "/" + r]
    ensures (|r| == 0 || r[0] != '/') ==> AbsoluteSrc(base, OneGlob("." + r)) == [base + "/" + r]
    ensures AbsoluteSrc(base, OneGlob("./" + r)) == [base + "/" + r]
    ensures AbsoluteSrc(base, OneGlob("/" + r)) == [base + "/" + r]
  {
    RelativePartOfPrefixed(r);
    AbsoluteSrcOne(base, r);
    AbsoluteSrcOne(base, "." + r);
    AbsoluteSrcOne(base, "./" + r);
    AbsoluteSrcOne(base, "/" + r);
  }
}

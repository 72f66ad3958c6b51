/**
 * The Next.js configuration: the development origins read from the
 * `ALLOWED_DEV_ORIGINS` environment variable, with a fixed fallback, and the
 * table that serves the static site's pages from under `/site`.
 */
module NextConfig {
  import opened Wrappers
  import opened Strings
  import opened Seqs

  /** `defaultAllowedOrigins`. */
  const DefaultAllowedOrigins: seq<string> := ["https://debug.nittc-i24.tech"]

  /** `.map((origin) => origin.trim())`. */
  function TrimEach(pieces: seq<string>): (r: seq<string>)
    ensures |r| == |pieces|
    ensures forall k :: 0 <= k < |r| ==> r[k] == Trim(pieces[k])
  {
    seq(|pieces|, k requires 0 <= k < |pieces| => Trim(pieces[k]))
  }

  /** `.filter(Boolean)` on strings: only "" is falsy. */
  predicate NonEmpty(s: string) {
    s != ""
  }

  /** The comma-separated pieces of the variable, `""` when it is unset. */
  function Pieces(env: Option<string>): seq<string> {
    Split(if env.Some? then env.value else "", ',')
  }

  /** Every trimmed piece is trimmed and, like the piece it came from, holds no comma. */
  lemma TrimmedPieces(env: Option<string>)
    ensures forall t :: t in TrimEach(Pieces(env)) ==> IsTrimmed(t) && ',' !in t
  {
    var pieces := Pieces(env);
    var trimmed := TrimEach(pieces);
    forall t | t in trimmed
      ensures IsTrimmed(t) && ',' !in t
    {
      var k :| 0 <= k < |trimmed| && trimmed[k] == t;
      TrimKeepsOut(pieces[k], ',');
    }
  }

  /** Trimming adds no character: one the string lacks, its trimmed form lacks too. */
  lemma TrimKeepsOut(s: string, c: char)
    requires c !in s
    ensures c !in Trim(s)
  {
    var i := LeadingSpace(s);
    assert Trim(s) == s[i..i + |Trim(s)|];
  }

  /**
   * `allowedDevOrigins`: the variable split on ',', each piece trimmed, and the
   * empty ones dropped. What is left is non-empty, trimmed, holds no comma,
   * and keeps the order of the variable.
   */
  function ParseOrigins(env: Option<string>): (origins: seq<string>)
    ensures forall o :: o in origins ==> o != "" && IsTrimmed(o) && ',' !in o
    ensures forall o :: o in origins <==> o in TrimEach(Pieces(env)) && o != ""
    ensures IsSubsequence(origins, TrimEach(Pieces(env)))
  {
    TrimmedPieces(env);
    Filter(TrimEach(Pieces(env)), NonEmpty)
  }

  /** The `allowedDevOrigins` of the configuration: the parsed list, or the default when it is empty. */
  function AllowedDevOrigins(env: Option<string>): (origins: seq<string>)
    ensures |origins| >= 1
    ensures ParseOrigins(env) != [] ==> origins == ParseOrigins(env)
    ensures ParseOrigins(env) == [] ==> origins == DefaultAllowedOrigins
    ensures forall o :: o in origins ==> o != "" && IsTrimmed(o) && ',' !in o
  {
    DefaultOriginWellFormed();
    if |ParseOrigins(env)| > 0 then ParseOrigins(env) else DefaultAllowedOrigins
  }

  /** The default origin is itself a well-formed entry. */
  lemma DefaultOriginWellFormed()
    ensures forall o :: o in DefaultAllowedOrigins ==> o != "" && IsTrimmed(o) && ',' !in o
  {
    var o := DefaultAllowedOrigins[0];
    assert o[0] == 'h' && o[|o| - 1] == 'h';
  }

  /** Every character of `s` is the separator or white space. */
  predicate OnlySeparatorsAndSpace(s: string, sep: char) {
    forall i :: 0 <= i < |s| ==> s[i] == sep || IsSpace(s[i])
  }

  /** Each piece of the split is blank. */
  predicate AllPiecesBlank(pieces: seq<string>) {
    forall k :: 0 <= k < |pieces| ==> AllSpace(pieces[k])
  }

  lemma OnlySeparatorsCons(s: string, sep: char)
    requires s != []
    ensures OnlySeparatorsAndSpace(s, sep) <==> (s[0] == sep || IsSpace(s[0])) && OnlySeparatorsAndSpace(s[1..], sep)
  {
    if (s[0] == sep || IsSpace(s[0])) && OnlySeparatorsAndSpace(s[1..], sep) {
      forall i | 0 <= i < |s| ensures s[i] == sep || IsSpace(s[i]) {
        if i > 0 {
          assert s[i] == s[1..][i - 1];
        }
      }
    }
  }

  lemma AllSpaceCons(c: char, t: string)
    ensures AllSpace([c] + t) <==> IsSpace(c) && AllSpace(t)
  {
    var s := [c] + t;
    if IsSpace(c) && AllSpace(t) {
      forall i | 0 <= i < |s| ensures IsSpace(s[i]) {
        if i > 0 {
          assert s[i] == t[i - 1];
        }
      }
    }
    if AllSpace(s) {
      assert IsSpace(s[0]);
      forall i | 0 <= i < |t| ensures IsSpace(t[i]) {
        assert t[i] == s[i + 1];
      }
    }
  }

  lemma AllPiecesBlankCons(first: string, rest: seq<string>)
    ensures AllPiecesBlank([first] + rest) <==> AllSpace(first) && AllPiecesBlank(rest)
  {
    var ps := [first] + rest;
    if AllSpace(first) && AllPiecesBlank(rest) {
      forall k | 0 <= k < |ps| ensures AllSpace(ps[k]) {
        if k > 0 {
          assert ps[k] == rest[k - 1];
        }
      }
    }
    if AllPiecesBlank(ps) {
      assert AllSpace(ps[0]);
      forall k | 0 <= k < |rest| ensures AllSpace(rest[k]) {
        assert rest[k] == ps[k + 1];
      }
    }
  }

  /** A string holds only separators and white space exactly when each of its pieces is blank. */
  lemma {:induction false} PiecesBlank(s: string, sep: char)
    ensures OnlySeparatorsAndSpace(s, sep) <==> AllPiecesBlank(Split(s, sep))
    decreases |s|
  {
    if s != [] {
      var rest := Split(s[1..], sep);
      PiecesBlank(s[1..], sep);
      OnlySeparatorsCons(s, sep);
      if s[0] == sep {
        assert Split(s, sep) == [""] + rest;
        AllPiecesBlankCons("", rest);
      } else {
        assert Split(s, sep) == [[s[0]] + rest[0]] + rest[1..];
        assert rest == [rest[0]] + rest[1..];
        AllPiecesBlankCons([s[0]] + rest[0], rest[1..]);
        AllPiecesBlankCons(rest[0], rest[1..]);
        AllSpaceCons(s[0], rest[0]);
      }
    }
  }

  /** The parsed list is empty exactly when every piece is blank. */
  lemma ParseOriginsEmpty(env: Option<string>)
    ensures ParseOrigins(env) == [] <==> AllPiecesBlank(Pieces(env))
  {
    var pieces := Pieces(env);
    var trimmed := TrimEach(pieces);
    forall k | 0 <= k < |pieces|
      ensures AllSpace(pieces[k]) <==> trimmed[k] == ""
    {
      BlankIffTrimEmpty(pieces[k]);
    }
    if ParseOrigins(env) == [] {
      forall k | 0 <= k < |trimmed| ensures trimmed[k] == "" {
        assert trimmed[k] in trimmed;
      }
    } else {
      var o := ParseOrigins(env)[0];
      assert o in ParseOrigins(env);
    }
  }

  /**
   * The parsed list is empty, and the default is used, exactly when the
   * variable is unset or holds nothing but commas and white space.
   */
  lemma FallbackExactlyWhenBlank(env: Option<string>)
    ensures ParseOrigins(env) == [] <==> env.None? || OnlySeparatorsAndSpace(env.value, ',')
    ensures env.None? || OnlySeparatorsAndSpace(env.value, ',') ==> AllowedDevOrigins(env) == DefaultAllowedOrigins
  {
    ParseOriginsEmpty(env);
    PiecesBlank(if env.Some? then env.value else "", ',');
  }

  /** One entry of the `rewrites()` table. */
  datatype Rewrite = Rewrite(source: string, destination: string)

  /** `rewrites()`: the site root and each static page, served from under `/site`. */
  const Rewrites: seq<Rewrite> := [
    Rewrite("/", "/site/index.html"),
    Rewrite("/index.html", "/site/index.html"),
    Rewrite("/access.html", "/site/access.html"),
    Rewrite("/story.html", "/site/story.html"),
    Rewrite("/play.html", "/site/play.html"),
    Rewrite("/credit.html", "/site/credit.html"),
    Rewrite("/making.html", "/site/making.html")]

  /** The destination of the first entry of `table` whose source is `path`: a lookup in the table. */
  function RewriteOf(path: string, table: seq<Rewrite>): (r: Option<string>)
    ensures r.Some? <==> exists k :: 0 <= k < |table| && table[k].source == path
    ensures r.Some? ==> exists k :: 0 <= k < |table| && table[k] == Rewrite(path, r.value)
  {
    if table == [] then None
    else if table[0].source == path then Some(table[0].destination)
    else
      var rest := RewriteOf(path, table[1..]);
      assert forall k :: 1 <= k < |table| ==> table[k] == table[1..][k - 1];
      rest
  }

  /** Every page rewrite adds `/site` in front of the path; the root goes to the site's index page. */
  lemma RewritesPrefixSite()
    ensures Rewrites[0] == Rewrite("/", "/site/index.html")
    ensures forall k :: 1 <= k < |Rewrites| ==> Rewrites[k].destination == "/site" + Rewrites[k].source
  {
    SitePagesFirst();
    SitePagesLast();
  }

  lemma SitePagesFirst()
    ensures "/site/index.html" == "/site" + "/index.html"
    ensures "/site/access.html" == "/site" + "/access.html"
    ensures "/site/story.html" == "/site" + "/story.html"
  {
  }

  lemma SitePagesLast()
    ensures "/site/play.html" == "/site" + "/play.html"
    ensures "/site/credit.html" == "/site" + "/credit.html"
    ensures "/site/making.html" == "/site" + "/making.html"
  {
  }

  /** A path the table rewrites goes either to `/site` plus itself, or, for the root, to the index page. */
  lemma RewrittenPaths(path: string)
    requires RewriteOf(path, Rewrites).Some?
    ensures RewriteOf(path, Rewrites).value == (if path == "/" then "/site/index.html" else "/site" + path)
  {
    RewritesPrefixSite();
  }
}

/**
 * The request-path middleware of the web server
 * (world_wide_west/src/path_normalizer.rs): trailing slashes are dropped so
 * that "/a/" and "/a" reach the same route.
 */
module PathNormalizer {

  /** `str::trim_end_matches('/')`. */
  function TrimSlashes(s: string): (r: string)
    ensures |r| <= |s| && r == s[..|r|]
    ensures forall i :: |r| <= i < |s| ==> s[i] == '/'
    ensures r == [] || r[|r| - 1] != '/'
  {
    if s != [] && s[|s| - 1] == '/' then TrimSlashes(s[..|s| - 1]) else s
  }

  /** Trimming is idempotent: a trimmed path has nothing left to trim. */
  lemma TrimIdempotent(s: string)
    ensures TrimSlashes(TrimSlashes(s)) == TrimSlashes(s)
  {
  }

  /** The root path becomes the empty path. */
  lemma RootBecomesEmpty()
    ensures TrimSlashes("/") == ""
    ensures TrimSlashes("/a//") == "/a"
  {
    assert "/"[..0] == [];
    assert "/a//"[..3] == "/a/";
    assert "/a/"[..2] == "/a";
  }

  /** The trimmed path is determined by its own characteristic properties. */
  lemma {:induction false} TrimUnique(s: string, t: string)
    requires |t| <= |s| && t == s[..|t|]
    requires forall i :: |t| <= i < |s| ==> s[i] == '/'
    requires t == [] || t[|t| - 1] != '/'
    ensures TrimSlashes(s) == t
    decreases |s|
  {
    if |s| > |t| {
      assert s[..|s| - 1][..|t|] == t;
      TrimUnique(s[..|s| - 1], t);
    }
  }

  /** `afire::MiddleResult`. */
  datatype MiddleResult = Continue | Abort | Send

  /** The parts of `afire::Request` a middleware sees. */
  class Request {
    var verb: string
    var path: string
    var query: seq<(string, string)>
    var headers: seq<(string, string)>
    var body: seq<bv8>

    constructor (verb: string, path: string)
      ensures this.verb == verb && this.path == path
      ensures query == [] && headers == [] && body == []
    {
      this.verb := verb;
      this.path := path;
      this.query := [];
      this.headers := [];
      this.body := [];
    }
  }

  /** `PathNormalizer::pre`: rewrites only the path, and always lets the request continue. */
  method Pre(req: Request) returns (r: MiddleResult)
    modifies req`path
    ensures req.path == TrimSlashes(old(req.path))
    ensures r == Continue
  {
    req.path := TrimSlashes(req.path);
    r := Continue;
  }
}

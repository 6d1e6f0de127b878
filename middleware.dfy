/** The request gate in front of the admin dashboard and the work API. */
module Middleware {
  import opened Wrappers
  import opened Text

  /** What the gate sees of a request: the path, the HTTP method and the value of
      the `admin_auth` cookie, if set. */
  datatype Request = Request(pathname: string, verb: string, authCookie: Option<string>)

  datatype Action = Next | RedirectTo(location: string) | Unauthorized

  /** Signed in: the cookie is present and holds exactly `true`. */
  predicate SignedIn(req: Request): (r: bool)
    ensures r <==> req.authCookie.Some? && req.authCookie.value == "true"
  {
    req.authCookie == Some("true")
  }

  /** `middleware`: the dashboard sends visitors who are not signed in to
      the sign-in page, and the work API refuses them anything but GET. */
  function Gate(req: Request): (r: Action)
    ensures StartsWith(req.pathname, "/admin/dashboard") && !SignedIn(req) ==> r == RedirectTo("/admin")
    ensures (!StartsWith(req.pathname, "/admin/dashboard") && StartsWith(req.pathname, "/api/work") &&
             req.verb != "GET" && !SignedIn(req)) ==> r == Unauthorized
    ensures r == Next <==> (SignedIn(req) ||
      (!StartsWith(req.pathname, "/admin/dashboard") && !(StartsWith(req.pathname, "/api/work") && req.verb != "GET")))
  {
    if StartsWith(req.pathname, "/admin/dashboard") && !SignedIn(req) then RedirectTo("/admin")
    else if StartsWith(req.pathname, "/api/work") && req.verb != "GET" && !SignedIn(req) then Unauthorized
    else Next
  }

  /** `config.matcher`: `/admin/dashboard/:path*` and `/api/work/:path*`,
      that is the path itself or anything below it. */
  predicate Matched(pathname: string): (r: bool)
    ensures r ==> StartsWith(pathname, "/admin/dashboard") || StartsWith(pathname, "/api/work")
  {
    SlashPrefix(pathname, "/admin/dashboard");
    SlashPrefix(pathname, "/api/work");
    || pathname == "/admin/dashboard" || StartsWith(pathname, "/admin/dashboard/")
    || pathname == "/api/work" || StartsWith(pathname, "/api/work/")
  }

  /** A path equal to `dir` or below it starts with `dir`. */
  lemma SlashPrefix(pathname: string, dir: string)
    ensures pathname == dir || StartsWith(pathname, dir + "/") ==> StartsWith(pathname, dir)
  {
    if StartsWith(pathname, dir + "/") {
      assert pathname[..|dir|] == pathname[..|dir| + 1][..|dir|];
    }
  }

  /** What happens to a request: the gate runs only on matched paths. */
  function Handle(req: Request): (r: Action)
    ensures !Matched(req.pathname) ==> r == Next
    ensures Matched(req.pathname) ==> r == Gate(req)
  {
    if Matched(req.pathname) then Gate(req) else Next
  }

  /** A GET of the work API always goes through. */
  lemma WorkReadsAreOpen(req: Request)
    requires StartsWith(req.pathname, "/api/work") && req.verb == "GET"
    ensures Handle(req) == Next
  {
    PrefixChar(req.pathname, "/api/work", 2);
  }

  /** A signed-in visitor is never stopped. */
  lemma SignedInPasses(req: Request)
    requires SignedIn(req)
    ensures Handle(req) == Next
  {
  }

  /** Every matched path below the dashboard, or a write to the work API, is
      refused to a visitor who is not signed in. */
  lemma MatchedPathsAreGuarded(req: Request)
    requires Matched(req.pathname) && !SignedIn(req)
    ensures StartsWith(req.pathname, "/admin/dashboard") ==> Handle(req) == RedirectTo("/admin")
    ensures StartsWith(req.pathname, "/api/work") && req.verb != "GET" ==> Handle(req) == Unauthorized
  {
    if StartsWith(req.pathname, "/api/work") {
      PrefixChar(req.pathname, "/api/work", 2);
    }
  }

  /** The matcher is narrower than the prefix tests of the gate: a write to
      `/api/workshop` never reaches the gate, though the gate would refuse it. */
  lemma UnmatchedLookalike()
    ensures Gate(Request("/api/workshop", "POST", None)) == Unauthorized
    ensures Handle(Request("/api/workshop", "POST", None)) == Next
  {
    var p := "/api/workshop";
    assert p[..9] == "/api/work";
    assert p[..10] != "/api/work/" by {
      assert p[9] == 's';
    }
    assert p[1] == 'a';
  }
}

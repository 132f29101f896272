/**
 * Client-side routing (src/router/index.ts): the route table and the global `beforeEach`
 * guard, which sends visitors without a token to 'login' and logged-in users away from it.
 */
module Router {

  import opened Wrappers
  import opened Seqs

  datatype Route = Route(path: string, name: string)

  /** The route table, in declaration order. */
  const Routes: seq<Route> := [
    Route("/", "home"),
    Route("/login", "login"),
    Route("/album", "album"),
    Route("/my-music", "my-music"),
    Route("/rank", "rank"),
    Route("/profile", "profile"),
    Route("/edit-profile", "edit-profile"),
    Route("/settings", "settings"),
    Route("/settings/reset-password", "reset-password"),
    Route("/search", "search")
  ]

  /** The route named `name`, if the table has one. */
  function RouteNamed(name: string): (r: Option<Route>)
    ensures r.Some? ==> r.value in Routes && r.value.name == name
    ensures r.None? ==> forall k :: 0 <= k < |Routes| ==> Routes[k].name != name
  {
    FindFirst(Routes, RouteName, name)
  }

  function RouteName(r: Route): string {
    r.name
  }

  /** The one `next` call the guard makes: let the navigation through, or redirect to a named route. */
  datatype NavDecision = Proceed | Redirect(name: string)

  /**
   * The `beforeEach` guard. `token` is the auth store's token (the empty string when logged
   * out); `target` is the target route's name (`None` when the target has no name).
   */
  function Guard(token: string, target: Option<string>): (d: NavDecision)
    ensures token == "" && target != Some("login") <==> d == Redirect("login")
    ensures token != "" && target == Some("login") <==> d == Redirect("home")
    ensures d.Proceed? <==> (token == "") == (target == Some("login"))
  {
    if token == "" && target != Some("login") then Redirect("login")
    else if token != "" && target == Some("login") then Redirect("home")
    else Proceed
  }

  /** Every redirect lands on a route the guard lets through with the same token: no redirect loop. */
  lemma {:induction false} RedirectTargetPasses(token: string, target: Option<string>)
    ensures Guard(token, target).Redirect? ==> Guard(token, Some(Guard(token, target).name)) == Proceed
  {
    match Guard(token, target)
    case Proceed =>
    case Redirect(name) =>
      if token == "" {
        assert name == "login";
      } else {
        assert name == "home";
      }
  }

  /** Route names are distinct, and both redirect targets exist in the table. */
  lemma RouteTableWellFormed()
    ensures forall i, j :: 0 <= i < j < |Routes| ==> Routes[i].name != Routes[j].name
    ensures RouteNamed("home") == Some(Route("/", "home"))
    ensures RouteNamed("login") == Some(Route("/login", "login"))
  {
    forall i, j | 0 <= i < j < |Routes|
      ensures Routes[i].name != Routes[j].name
    {
      NameKey(i);
      NameKey(j);
    }
  }

  /** The first letter and the length of each route name, which already tell the names apart. */
  const NameKeys: seq<(char, int)> := [
    ('h', 4), ('l', 5), ('a', 5), ('m', 8), ('r', 4), ('p', 7), ('e', 12), ('s', 8), ('r', 14), ('s', 6)
  ]

  lemma NameKey(i: nat)
    requires i < |Routes|
    ensures |NameKeys| == |Routes| && Routes[i].name != "" && (Routes[i].name[0], |Routes[i].name|) == NameKeys[i]
  {
  }
}

// Route resolution of the single-page frontend's Router: which view file a
// navigation loads, from an optional explicit path and the URL hash.
// Fetching the file and writing it into the page is I/O and stays outside.

module Router {
  import opened JsValue

  /** The route table: each route's view file. */
  const Routes: map<string, string> := map[
    "/" := "views/dashboard.html",
    "/dashboard" := "views/dashboard.html",
    "/attendance" := "views/attendance.html",
    "/academics" := "views/academics.html",
    "/settings" := "views/settings.html"
  ]

  /** The route used when neither a path nor a hash is given. */
  const DefaultRoute: string := "/dashboard"

  /** hash.slice(1): the hash without its leading '#', and '' for an empty hash. */
  function HashRoute(hash: string): (r: string)
    ensures |hash| >= 1 ==> hash == [hash[0]] + r
    ensures |hash| == 0 ==> r == ""
  {
    if |hash| >= 1 then hash[1..] else ""
  }

  /** `path || window.location.hash.slice(1) || '/dashboard'`; path defaults to null. */
  function RouteOf(path: JsVal, hash: string): JsVal
  {
    Or(Or(path, Str(HashRoute(hash))), Str(DefaultRoute))
  }

  /** `routes[route] || routes['/']`, looking at the route table's own entries. */
  function FilePath(route: JsVal): string
  {
    var key := ToStr(route);
    if key in Routes && Routes[key] != "" then Routes[key] else Routes["/"]
  }

  /** Router.navigate(path): the view file it hands to loadView. */
  function Navigate(path: JsVal, hash: string): string
  {
    FilePath(RouteOf(path, hash))
  }

  /** An explicit truthy path wins over the hash. */
  lemma ExplicitPathWins(path: JsVal, hash: string)
    requires Truthy(path)
    ensures RouteOf(path, hash) == path
    ensures Navigate(path, hash) == FilePath(path)
  {
  }

  /** Without a path, the hash minus its first character is the route, and an empty one means '/dashboard'. */
  lemma HashOrDashboard(path: JsVal, hash: string)
    requires !Truthy(path)
    ensures |hash| > 1 ==> RouteOf(path, hash) == Str(hash[1..])
    ensures |hash| <= 1 ==> RouteOf(path, hash) == Str("/dashboard")
  {
  }

  /** A route that is not in the table loads the view of '/'. */
  lemma UnknownRouteFallsBack(route: JsVal)
    requires ToStr(route) !in Routes
    ensures FilePath(route) == Routes["/"]
  {
  }

  /** A route in the table loads its own view. */
  lemma KnownRouteLoadsItsView(route: JsVal)
    requires ToStr(route) in Routes
    ensures FilePath(route) == Routes[ToStr(route)]
  {
  }

  /** '/' and '/dashboard' load the same view, which is also what a bare URL loads. */
  lemma RootIsDashboard(path: JsVal)
    requires !Truthy(path)
    ensures FilePath(Str("/")) == FilePath(Str("/dashboard"))
    ensures Navigate(path, "") == FilePath(Str("/")) && Navigate(path, "#") == FilePath(Str("/"))
  {
  }

  /** Every navigation loads one of the table's view files. */
  lemma NavigateLoadsAView(path: JsVal, hash: string)
    ensures Navigate(path, hash) in Routes.Values
  {
    var key := ToStr(RouteOf(path, hash));
    if key in Routes && Routes[key] != "" {
      assert Routes[key] in Routes.Values;
    } else {
      assert Routes["/"] in Routes.Values;
    }
  }

  // ---------------------------------------------------------------------------
  // routes[route] on a plain object also finds what it inherits

  /** The properties every plain object inherits from Object.prototype. */
  const InheritedNames: set<string> := {
    "constructor", "__proto__", "hasOwnProperty", "isPrototypeOf", "propertyIsEnumerable",
    "toLocaleString", "toString", "valueOf",
    "__defineGetter__", "__defineSetter__", "__lookupGetter__", "__lookupSetter__"
  }

  /**
   * `routes[route]` as the language evaluates it: an own entry is its file
   * name, an inherited name is a function or Object.prototype itself (an
   * object, so truthy), and anything else is undefined.
   */
  function RouteEntry(key: string): JsVal
  {
    if key in Routes then Str(Routes[key])
    else if key in InheritedNames then Obj(map[])
    else Undefined
  }

  /** `routes[route] || routes['/']` as written: the value passed to loadView. */
  function FilePathAsWritten(route: JsVal): JsVal
  {
    Or(RouteEntry(ToStr(route)), Str(Routes["/"]))
  }

  /** The URL hash "#constructor" hands loadView a function instead of a view file, so no view or fallback page is chosen. */
  lemma InheritedRouteIsNoView()
    ensures var v := FilePathAsWritten(RouteOf(Null, "#constructor"));
      v.Obj? && forall f :: f in Routes.Values ==> v != Str(f)
  {
    assert RouteOf(Null, "#constructor") == Str("constructor");
  }

  /** Away from inherited names the lookup as written and the own-entry lookup agree. */
  lemma AsWrittenAgrees(route: JsVal)
    requires ToStr(route) !in InheritedNames
    ensures FilePathAsWritten(route) == Str(FilePath(route))
  {
  }
}

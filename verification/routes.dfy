/** The protected routes of the blog API and the permission each one's
    `requires_auth` decorator names: the six write routes of `create_app`,
    and the two write routes of the older flat application module. */
module Routes {
  import opened Options
  import opened AuthErrors
  import opened Json
  import opened BearerHeader
  import opened Verifier
  import opened Permissions
  import opened Middleware
  import Text

  /** The write operations on articles and collections that `create_app`
      registers. */
  datatype Route =
    | CreateArticle
    | EditArticle
    | DeleteArticle
    | CreateCollection
    | EditCollection
    | DeleteCollection

  /** The permission string a route's decorator passes to `requires_auth`. */
  function RequiredPermission(route: Route): string
  {
    match route
    case CreateArticle => "post:articles"
    case EditArticle => "patch:articles"
    case DeleteArticle => "delete:articles"
    case CreateCollection => "post:collections"
    case EditCollection => "patch:collections"
    case DeleteCollection => "delete:collections"
  }

  /** No route of `create_app` relies on the decorator's empty default, and
      no two of them share a permission. */
  lemma RequiredPermissionsDistinct(r1: Route, r2: Route)
    ensures RequiredPermission(r1) != ""
    ensures r1 != r2 ==> RequiredPermission(r1) != RequiredPermission(r2)
  {
  }

  /** A token whose permission list is exactly one route's permission opens
      that route and is refused with 403 on every other route. */
  lemma PermissionOpensOnlyItsRoute<T>(scheme: string, token: string, world: World, j: int,
                                       payload: Claims, granted: Route, asked: Route, view: () -> T)
    requires ' ' !in scheme && ' ' !in token && Text.Lower(scheme) == Scheme
    requires DecodesAs(token, world, j, Decoded(payload))
    requires PermissionsClaim in payload && payload[PermissionsClaim] == JArr([JStr(RequiredPermission(granted))])
    ensures var r := RequiresAuth(RequiredPermission(asked), Some(scheme + " " + token), world, view);
      && (asked == granted ==> r == Ok(view()))
      && (asked != granted ==> AbortsWith(r, Unauthorized, 403))
  {
    RequiredPermissionsDistinct(granted, asked);
    if asked == granted {
      GrantedRequestRuns(scheme, token, RequiredPermission(asked), world, j, payload, view);
    } else {
      MissingPermissionForbidden(scheme, token, RequiredPermission(asked), world, j, payload, view);
    }
  }

  /** The write routes of the flat application module: `/articles/add` and
      `/collections/add`. */
  datatype FlatRoute = AddArticle | AddCollection

  /** The permission a flat route's decorator passes to `requires_auth`. */
  function FlatRequiredPermission(route: FlatRoute): string
  {
    match route
    case AddArticle => "post:articles"
    case AddCollection => "post:collections"
  }

  /** The route of `create_app` that creates the same kind of record. */
  function CreateCounterpart(route: FlatRoute): Route
  {
    match route
    case AddArticle => CreateArticle
    case AddCollection => CreateCollection
  }

  /** Each flat route asks for exactly the permission of its create
      counterpart and of no other route of `create_app`, so the gate gives
      every request the same outcome on the two: both views run, or both
      are refused with the same failure.  The views themselves differ. */
  lemma FlatRoutesShareCreatePermissions<T, U>(flat: FlatRoute, route: Route, auth: Option<string>, world: World,
                                               flatView: () -> T, createView: () -> U)
    ensures FlatRequiredPermission(flat) == RequiredPermission(route) <==> route == CreateCounterpart(flat)
    ensures RequiresAuth(FlatRequiredPermission(flat), auth, world, flatView).Ok? <==>
            RequiresAuth(RequiredPermission(CreateCounterpart(flat)), auth, world, createView).Ok?
    ensures RequiresAuth(FlatRequiredPermission(flat), auth, world, flatView).Err? ==>
            RequiresAuth(FlatRequiredPermission(flat), auth, world, flatView).fail ==
            RequiresAuth(RequiredPermission(CreateCounterpart(flat)), auth, world, createView).fail
  {
  }
}

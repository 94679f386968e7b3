/** The permission gate, `check_permissions(permission, payload)`. */
module Permissions {
  import opened Options
  import opened AuthErrors
  import opened Json

  /** The claim holding the granted permissions. */
  const PermissionsClaim := "permissions"

  /** Succeeds with `true` when the payload's "permissions" claim contains
      `permission` by Python's `in`; raises `invalid_claims`/400 without
      the claim and `unauthorized`/403 when the permission is not in it. */
  function CheckPermissions(permission: string, payload: Claims): (r: Result<bool>)
    ensures PermissionsClaim !in payload ==> AbortsWith(r, InvalidClaims, 400)
    ensures r.Ok? ==> r.value
    ensures r.Ok? <==> PermissionsClaim in payload && Contains(payload[PermissionsClaim], permission) == Some(true)
    ensures r.Err? && r.fail.Unhandled? <==>
      PermissionsClaim in payload && Contains(payload[PermissionsClaim], permission).None?
    ensures PermissionsClaim in payload && payload[PermissionsClaim].JArr? ==>
      var granted := payload[PermissionsClaim].items;
      && (r.Ok? <==> exists i :: 0 <= i < |granted| && granted[i] == JStr(permission))
      && (r.Err? ==> AbortsWith(r, Unauthorized, 403))
  {
    if PermissionsClaim !in payload then
      Err(Abort(PermissionsMissing))
    else
      match Contains(payload[PermissionsClaim], permission)
      case None => Err(Unhandled(PermissionsNotContainer))
      case Some(false) => Err(Abort(PermissionNotFound))
      case Some(true) => Ok(true)
  }

  /** Only the "permissions" claim decides the gate: two payloads that
      agree on it (both lack it, or both hold the same value) get the same
      answer, whatever their other claims. */
  lemma OnlyPermissionsClaimDecides(permission: string, p1: Claims, p2: Claims)
    requires PermissionsClaim in p1 <==> PermissionsClaim in p2
    requires PermissionsClaim in p1 ==> p1[PermissionsClaim] == p2[PermissionsClaim]
    ensures CheckPermissions(permission, p1) == CheckPermissions(permission, p2)
  {
  }

  /** Granting more never hurts: if a list of permissions lets `permission`
      through, so does any list that holds every string the first one holds. */
  lemma GrantMonotone(permission: string, granted: seq<Json>, more: seq<Json>, p1: Claims, p2: Claims)
    requires forall j :: 0 <= j < |granted| && granted[j].JStr? ==> granted[j] in more
    requires PermissionsClaim in p1 && p1[PermissionsClaim] == JArr(granted)
    requires PermissionsClaim in p2 && p2[PermissionsClaim] == JArr(more)
    requires CheckPermissions(permission, p1).Ok?
    ensures CheckPermissions(permission, p2).Ok?
  {
    var i :| 0 <= i < |granted| && granted[i] == JStr(permission);
    assert granted[i] in more;
  }

  /** With a list of permissions, the empty permission is not satisfied
      unless the list holds an empty string; with a string-valued claim it
      always is, since "" is a substring of every string. */
  lemma EmptyPermission(payload: Claims)
    requires PermissionsClaim in payload
    ensures payload[PermissionsClaim].JArr? ==>
      (CheckPermissions("", payload).Ok? <==> JStr("") in payload[PermissionsClaim].items)
    ensures payload[PermissionsClaim].JStr? ==> CheckPermissions("", payload) == Ok(true)
  {
    if payload[PermissionsClaim].JStr? {
      EmptyIsSubstring(payload[PermissionsClaim].s);
    }
  }
}

/** The permission gate's result on concrete payloads. */
module PermissionExamples {
  import opened Options
  import opened AuthErrors
  import opened Json
  import opened Permissions

  /** A payload granting "post:articles" and "delete:articles" passes a
      route that asks for "post:articles". */
  lemma GrantedPermissionPasses()
    ensures CheckPermissions("post:articles",
      map["permissions" := JArr([JStr("post:articles"), JStr("delete:articles")])]) == Ok(true)
  {
    var items := [JStr("post:articles"), JStr("delete:articles")];
    assert items[0] == JStr("post:articles");
  }

  /** A payload granting only "read:articles" is refused with 403 there. */
  lemma OtherPermissionForbidden()
    ensures CheckPermissions("post:articles",
      map["permissions" := JArr([JStr("read:articles")])]) == Err(Abort(PermissionNotFound))
  {
    assert "read:articles" != "post:articles" by {
      assert "read:articles"[0] != "post:articles"[0];
    }
  }

  /** A payload with no "permissions" claim is refused with 400. */
  lemma NoPermissionsClaim()
    ensures CheckPermissions("post:articles", map["sub" := JStr("user")]) == Err(Abort(PermissionsMissing))
  {
  }
}

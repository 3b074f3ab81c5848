/**
  Group-based authorisation decisions (shared/authorization-middleware.js).
  Each requirement inspects `req.user` as the bearer middleware left it and
  either lets the request through or answers with a status and a JSON body.

  Slash normalisation is one-directional: a requirement written without a
  leading "/" is also met by the slashed group path, never the other way
  round. The any-of check additionally removes the FIRST "/" of each caller
  group, wherever it stands (`String.prototype.replace` with a string pattern).
*/
module Authorization {
  import opened Wrappers
  import opened Builtins
  import opened Bearer

  /** The JSON body of a refusal; absent fields are `None`. */
  datatype Body = Body(error: string, message: Option<string>, userGroups: Option<seq<string>>)

  /** `next()` or `res.status(status).json(body)`. */
  datatype Decision = Allow | Deny(status: nat, body: Body)

  /** The requirement on owner-or-admin routes also reports whether the resolver ran. */
  datatype OwnerCheck = OwnerCheck(decision: Decision, resolverCalled: bool)

  /**
    What `await getResourceOwnerId(req)` produced: a string or `undefined`
    (`Resolved`), `null` (`ResolvedNull`), or an exception (`Threw`). A
    caller's id is a string or `undefined`, never `null`.
  */
  datatype Resolution = Resolved(ownerId: Option<string>) | ResolvedNull | Threw

  const AuthRequired: Decision := Deny(401, Body("Authentication required", None, None))

  /** The requirement-side normalisation: prefix "/" unless one is there already. */
  function Normalize(name: string): (r: string)
    ensures StartsWith(r, "/")
    ensures StartsWith(name, "/") ==> r == name
    ensures !StartsWith(name, "/") ==> r == "/" + name
  {
    if StartsWith(name, "/") then name else "/" + name
  }

  /** `groupName.startsWith('/')` is a test of the first character. */
  lemma SlashPrefix(name: string)
    ensures StartsWith(name, "/") <==> |name| > 0 && name[0] == '/'
  {
    if |name| > 0 && name[0] == '/' {
      assert name[..1] == "/";
    }
  }

  /** `requireGroup(groupName)` */
  function RequireGroup(groupName: string, user: Option<AuthUser>): (d: Decision)
    ensures user.None? ==> d == AuthRequired
    ensures user.Some? ==>
              (d.Allow? <==>
                 groupName in user.value.groups
                 || (!StartsWith(groupName, "/") && "/" + groupName in user.value.groups))
    ensures user.Some? && d.Deny? ==>
              d == Deny(403, Body("Forbidden", Some("Access denied. Required group: " + groupName),
                                  Some(user.value.groups)))
  {
    if user.None? then AuthRequired
    else
      var groups := user.value.groups;
      var normalized := Normalize(groupName);
      var matches := (g: string) => g == normalized || g == groupName;
      AnyIff(groups, matches);
      if Any(groups, matches) then Allow
      else Deny(403, Body("Forbidden", Some("Access denied. Required group: " + groupName), Some(groups)))
  }

  /** A caller group satisfies an any-of list: it is a normalised name, or it loses its first "/" to become a listed name. */
  predicate MeetsAnyOf(userGroup: string, names: seq<string>) {
    (exists j :: 0 <= j < |names| && userGroup == Normalize(names[j]))
    || RemoveFirst(userGroup, '/') in names
  }

  /** `requireAnyGroup(groupNames)` */
  function RequireAnyGroup(groupNames: seq<string>, user: Option<AuthUser>): (d: Decision)
    ensures user.None? ==> d == AuthRequired
    ensures user.Some? ==>
              (d.Allow? <==> exists k :: 0 <= k < |user.value.groups| && MeetsAnyOf(user.value.groups[k], groupNames))
    ensures user.Some? && d.Deny? ==>
              d == Deny(403, Body("Forbidden", Some("Access denied. Required one of: " + Join(groupNames, ", ")),
                                  Some(user.value.groups)))
  {
    if user.None? then AuthRequired
    else
      var groups := user.value.groups;
      var normalized := seq(|groupNames|, j requires 0 <= j < |groupNames| => Normalize(groupNames[j]));
      var matches := (g: string) => g in normalized || RemoveFirst(g, '/') in groupNames;
      assert forall g :: g in normalized <==> exists j :: 0 <= j < |groupNames| && g == Normalize(groupNames[j]) by {
        forall g ensures g in normalized <==> exists j :: 0 <= j < |groupNames| && g == Normalize(groupNames[j]) {
          if g in normalized {
            var j :| 0 <= j < |normalized| && normalized[j] == g;
            assert g == Normalize(groupNames[j]);
          }
          if exists j :: 0 <= j < |groupNames| && g == Normalize(groupNames[j]) {
            var j :| 0 <= j < |groupNames| && g == Normalize(groupNames[j]);
            assert normalized[j] == g;
          }
        }
      }
      AnyIff(groups, matches);
      if Any(groups, matches) then Allow
      else Deny(403, Body("Forbidden", Some("Access denied. Required one of: " + Join(groupNames, ", ")), Some(groups)))
  }

  /** The platform-owner test of `requireOwnerOrAdmin`. */
  predicate IsPlatformOwner(groups: seq<string>) {
    "/owner" in groups || "owner" in groups
  }

  /**
    `requireOwnerOrAdmin(getResourceOwnerId)`, with `resolution` the result the
    resolver would produce for this request. A platform owner passes without
    the resolver being called; anyone else passes only when their id strictly
    equals the resolved owner id.
  */
  function RequireOwnerOrAdmin(user: Option<AuthUser>, resolution: Resolution): (r: OwnerCheck)
    ensures user.None? ==> r == OwnerCheck(AuthRequired, false)
    ensures user.Some? && IsPlatformOwner(user.value.groups) ==> r == OwnerCheck(Allow, false)
    ensures user.Some? && !IsPlatformOwner(user.value.groups) ==>
              && r.resolverCalled
              && (r.decision.Allow? <==> resolution == Resolved(user.value.id))
              && (resolution.Threw? ==> r.decision == Deny(500, Body("Error checking permissions", None, None)))
              && (resolution.Resolved? && resolution.ownerId != user.value.id ==>
                    r.decision == Deny(403, Body("Forbidden", Some("You can only access your own resources"), None)))
              && (resolution.ResolvedNull? ==>
                    r.decision == Deny(403, Body("Forbidden", Some("You can only access your own resources"), None)))
  {
    if user.None? then OwnerCheck(AuthRequired, false)
    else
      var groups := user.value.groups;
      var isOwner := (g: string) => g == "/owner" || g == "owner";
      AnyIff(groups, isOwner);
      if Any(groups, isOwner) then OwnerCheck(Allow, false)
      else
        match resolution
        case Threw => OwnerCheck(Deny(500, Body("Error checking permissions", None, None)), true)
        case ResolvedNull => OwnerCheck(Deny(403, Body("Forbidden", Some("You can only access your own resources"), None)), true)
        case Resolved(ownerId) =>
          if user.value.id == ownerId then OwnerCheck(Allow, true)
          else OwnerCheck(Deny(403, Body("Forbidden", Some("You can only access your own resources"), None)), true)
  }

  /** `requireOwner` */
  function RequireOwner(user: Option<AuthUser>): (d: Decision)
    ensures user.None? ==> d == AuthRequired
    ensures user.Some? ==> (d.Allow? <==> IsPlatformOwner(user.value.groups))
  {
    SlashPrefix("owner");
    assert !StartsWith("owner", "/");
    assert "/" + "owner" == "/owner";
    RequireGroup("owner", user)
  }

  /** `requireMerchant` */
  function RequireMerchant(user: Option<AuthUser>): (d: Decision)
    ensures user.None? ==> d == AuthRequired
    ensures user.Some? ==> (d.Allow? <==> "merchant" in user.value.groups || "/merchant" in user.value.groups)
  {
    SlashPrefix("merchant");
    assert !StartsWith("merchant", "/");
    assert "/" + "merchant" == "/merchant";
    RequireGroup("merchant", user)
  }

  /** `requireClient` */
  function RequireClient(user: Option<AuthUser>): (d: Decision)
    ensures user.None? ==> d == AuthRequired
    ensures user.Some? ==> (d.Allow? <==> "client" in user.value.groups || "/client" in user.value.groups)
  {
    SlashPrefix("client");
    assert !StartsWith("client", "/");
    assert "/" + "client" == "/client";
    RequireGroup("client", user)
  }

  /** `requireMerchantOrOwner` */
  function RequireMerchantOrOwner(user: Option<AuthUser>): (d: Decision)
    ensures user.None? ==> d == AuthRequired
    ensures user.Some? ==>
              (d.Allow? <==>
                 exists k :: 0 <= k < |user.value.groups| &&
                   (var g := user.value.groups[k];
                    g == "/merchant" || g == "/owner"
                    || RemoveFirst(g, '/') == "merchant" || RemoveFirst(g, '/') == "owner"))
  {
    var names := ["merchant", "owner"];
    SlashPrefix("merchant");
    SlashPrefix("owner");
    assert forall g :: MeetsAnyOf(g, names) <==>
             g == "/merchant" || g == "/owner"
             || RemoveFirst(g, '/') == "merchant" || RemoveFirst(g, '/') == "owner" by {
      forall g ensures MeetsAnyOf(g, names) <==>
             g == "/merchant" || g == "/owner"
             || RemoveFirst(g, '/') == "merchant" || RemoveFirst(g, '/') == "owner" {
        assert Normalize(names[0]) == "/merchant";
        assert Normalize(names[1]) == "/owner";
      }
    }
    RequireAnyGroup(names, user)
  }

  /** A caller with the groups of `u` and more. */
  predicate MoreGroups(u: AuthUser, v: AuthUser) {
    forall g :: g in u.groups ==> g in v.groups
  }

  /** Adding groups to a caller never turns an allowed `requireGroup` into a refusal. */
  lemma RequireGroupMonotone(groupName: string, u: AuthUser, v: AuthUser)
    requires MoreGroups(u, v)
    ensures RequireGroup(groupName, Some(u)).Allow? ==> RequireGroup(groupName, Some(v)).Allow?
  {
  }

  /** Adding groups to a caller never turns an allowed `requireAnyGroup` into a refusal. */
  lemma RequireAnyGroupMonotone(groupNames: seq<string>, u: AuthUser, v: AuthUser)
    requires MoreGroups(u, v)
    ensures RequireAnyGroup(groupNames, Some(u)).Allow? ==> RequireAnyGroup(groupNames, Some(v)).Allow?
  {
    if RequireAnyGroup(groupNames, Some(u)).Allow? {
      var k :| 0 <= k < |u.groups| && MeetsAnyOf(u.groups[k], groupNames);
      assert u.groups[k] in v.groups;
      var k' :| 0 <= k' < |v.groups| && v.groups[k'] == u.groups[k];
      assert MeetsAnyOf(v.groups[k'], groupNames);
    }
  }

  /** A slashed requirement is met only by that exact group: "/owner" is not met by "owner". */
  lemma SlashedRequirementIsExact(groupName: string, u: AuthUser)
    requires StartsWith(groupName, "/")
    ensures RequireGroup(groupName, Some(u)).Allow? <==> groupName in u.groups
  {
  }

  /** The concrete case: a caller holding only "owner" is refused by `requireGroup('/owner')`. */
  lemma SlashedOwnerRefusesBareOwner(u: AuthUser)
    requires u.groups == ["owner"]
    ensures RequireGroup("/owner", Some(u)).Deny?
    ensures RequireGroup("owner", Some(u)).Allow?
  {
    SlashPrefix("/owner");
    SlashPrefix("owner");
  }

  /**
    An any-of list is at least as permissive as `requireGroup` for each listed
    name that starts with "/" or contains none.
  */
  lemma {:induction false} AnyOfCoversGroup(groupName: string, groupNames: seq<string>, u: AuthUser)
    requires groupName in groupNames
    requires StartsWith(groupName, "/") || '/' !in groupName
    ensures RequireGroup(groupName, Some(u)).Allow? ==> RequireAnyGroup(groupNames, Some(u)).Allow?
  {
    if RequireGroup(groupName, Some(u)).Allow? {
      var j :| 0 <= j < |groupNames| && groupNames[j] == groupName;
      if groupName in u.groups {
        var k :| 0 <= k < |u.groups| && u.groups[k] == groupName;
        if StartsWith(groupName, "/") {
          assert u.groups[k] == Normalize(groupNames[j]);
        } else {
          assert RemoveFirst(u.groups[k], '/') == groupName;
        }
        assert MeetsAnyOf(u.groups[k], groupNames);
      } else {
        var k :| 0 <= k < |u.groups| && u.groups[k] == "/" + groupName;
        assert u.groups[k] == Normalize(groupNames[j]);
        assert MeetsAnyOf(u.groups[k], groupNames);
      }
    }
  }

  /**
    The two group checks disagree: removing the first "/" anywhere lets the
    group "ow/ner" satisfy `requireAnyGroup(['owner'])` while
    `requireGroup('owner')` refuses it.
  */
  lemma InnerSlashSatisfiesAnyOf(u: AuthUser)
    requires u.groups == ["ow/ner"]
    ensures RequireAnyGroup(["owner"], Some(u)).Allow?
    ensures RequireGroup("owner", Some(u)).Deny?
  {
    InnerSlashAccepted(u);
    InnerSlashExact(u);
  }

  /** The any-of half: "ow/ner" loses its "/" and meets "owner". */
  lemma InnerSlashAccepted(u: AuthUser)
    requires u.groups == ["ow/ner"]
    ensures RequireAnyGroup(["owner"], Some(u)).Allow?
  {
    InnerSlashDropped();
    assert MeetsAnyOf(u.groups[0], ["owner"]);
  }

  /** The exact half: "ow/ner" is neither "owner" nor "/owner". */
  lemma InnerSlashExact(u: AuthUser)
    requires u.groups == ["ow/ner"]
    ensures RequireGroup("owner", Some(u)).Deny?
  {
    SlashPrefix("owner");
    assert "ow/ner" != "/owner" by { assert "ow/ner"[0] != "/owner"[0]; }
    assert "owner" !in u.groups && "/owner" !in u.groups;
  }

  /** `"ow/ner".replace('/', '')` is "owner". */
  lemma InnerSlashDropped()
    ensures RemoveFirst("ow/ner", '/') == "owner"
  {
    var g := "ow/ner";
    assert g[1..][1..] == "/ner";
    assert RemoveFirst(g[1..][1..], '/') == "ner";
    assert RemoveFirst(g[1..], '/') == "wner";
  }

  /**
    A listed name with an inner "/" is refused by `requireAnyGroup` to the
    very group that carries it, which `requireGroup` accepts.
  */
  lemma InnerSlashNameRefused(w: AuthUser)
    requires w.groups == ["a/b"]
    ensures RequireGroup("a/b", Some(w)).Allow?
    ensures RequireAnyGroup(["a/b"], Some(w)).Deny?
  {
    var g := "a/b";
    SlashPrefix(g);
    assert RemoveFirst(g[1..], '/') == "b";
    assert RemoveFirst(g, '/') == "ab";
    assert Normalize(g) == "/a/b";
    assert !MeetsAnyOf(w.groups[0], [g]);
  }

  /**
    Ids are compared with strict equality even when absent: a caller whose
    token carries no subject passes for a resource whose resolver yields no
    owner.
  */
  lemma AbsentIdsMatch(u: AuthUser)
    requires u.id.None? && !IsPlatformOwner(u.groups)
    ensures RequireOwnerOrAdmin(Some(u), Resolved(None)) == OwnerCheck(Allow, true)
  {
  }

  /**
    A resolver yielding `null` refuses every caller who is not a platform
    owner, the id-less ones included: `undefined === null` is false.
  */
  lemma NullOwnerRefused(u: AuthUser)
    requires !IsPlatformOwner(u.groups)
    ensures RequireOwnerOrAdmin(Some(u), ResolvedNull).decision.Deny?
    ensures RequireOwnerOrAdmin(Some(u), ResolvedNull).decision.status == 403
  {
  }

  /** The owner-or-admin bypass coincides with `requireOwner`. */
  lemma OwnerBypassIsRequireOwner(u: AuthUser, resolution: Resolution)
    ensures RequireOwner(Some(u)).Allow? <==> !RequireOwnerOrAdmin(Some(u), resolution).resolverCalled
    ensures RequireOwner(Some(u)).Allow? ==> RequireOwnerOrAdmin(Some(u), resolution).decision.Allow?
  {
  }
}

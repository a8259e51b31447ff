/**
 * The route-permission helpers: route names `<path template>_<first method>`,
 * the start-up sync that registers every configured route missing from the
 * route table with permission level 0, and the per-request gate that checks
 * the caller's role key against a protected route's level bit by bit.
 */
module RouteGate {
  import opened Common
  import opened Models
  import opened Bitwise
  import opened Roles

  /** A route as the router holds it; `methods` is empty when the route has no method matcher. */
  datatype RouteDef = RouteDef(template: string, methods: seq<string>)

  /** The route table's name for `r`; a route without methods has none. */
  function RouteName(r: RouteDef): Option<string> {
    if |r.methods| == 0 then None else Some(r.template + "_" + r.methods[0])
  }

  /** Linear search for `e` in `s`. */
  method Contains(s: seq<string>, e: string) returns (found: bool)
    ensures found <==> e in s
  {
    for i := 0 to |s|
      invariant forall k :: 0 <= k < i ==> s[k] != e
    {
      if s[i] == e {
        return true;
      }
    }
    return false;
  }

  /** The names of the routes that have methods, in walk order. */
  function ConfiguredNames(defs: seq<RouteDef>): (names: seq<string>)
    ensures |names| <= |defs|
    decreases |defs|
  {
    if defs == [] then []
    else
      var rest := ConfiguredNames(defs[..|defs| - 1]);
      match RouteName(defs[|defs| - 1])
      case None => rest
      case Some(n) => rest + [n]
  }

  function NamesOf(routes: seq<Route>): (names: seq<string>)
    ensures |names| == |routes|
    ensures forall i :: 0 <= i < |routes| ==> names[i] == routes[i].name
    decreases |routes|
  {
    if routes == [] then [] else NamesOf(routes[..|routes| - 1]) + [routes[|routes| - 1].name]
  }

  /** A route the sync creates: public, with the key the store assigns left at 0. */
  function NewRoute(name: string): Route { Route(0, name, 0) }

  /** One new public route per configured name absent from `stored`, in order, repeats included. */
  function Inserted(configured: seq<string>, stored: seq<string>): (r: seq<Route>)
    ensures |r| <= |configured|
    ensures forall i :: 0 <= i < |r| ==> r[i].permissionLevel == 0 && r[i].name in configured && r[i].name !in stored
    decreases |configured|
  {
    if configured == [] then []
    else
      var rest := Inserted(configured[..|configured| - 1], stored);
      var n := configured[|configured| - 1];
      if n in stored then rest else rest + [NewRoute(n)]
  }

  /**
   * The start-up sync: the names are loaded once, the configured names
   * collected by walking the router, and every configured name not among
   * the loaded names inserted. Existing routes are never modified.
   */
  method UpdateRoutes(stored: seq<Route>, defs: seq<RouteDef>) returns (store': seq<Route>)
    ensures store' == stored + Inserted(ConfiguredNames(defs), NamesOf(stored))
  {
    var routeNames := LoadNames(stored);
    var routesConfigured := CollectNames(defs);
    store' := InsertMissing(stored, routesConfigured, routeNames);
  }

  /** The loop collecting the stored route names. */
  method LoadNames(stored: seq<Route>) returns (routeNames: seq<string>)
    ensures routeNames == NamesOf(stored)
  {
    routeNames := [];
    for i := 0 to |stored|
      invariant routeNames == NamesOf(stored[..i])
    {
      assert stored[..i + 1][..i] == stored[..i];
      routeNames := routeNames + [stored[i].name];
    }
    assert stored[..|stored|] == stored;
  }

  /** The router walk: template and first method of every route that has methods. */
  method CollectNames(defs: seq<RouteDef>) returns (routesConfigured: seq<string>)
    ensures routesConfigured == ConfiguredNames(defs)
  {
    routesConfigured := [];
    for i := 0 to |defs|
      invariant routesConfigured == ConfiguredNames(defs[..i])
    {
      assert defs[..i + 1][..i] == defs[..i];
      var methods := defs[i].methods;
      if |methods| > 0 {
        var name := defs[i].template + "_" + methods[0];
        routesConfigured := routesConfigured + [name];
      }
    }
    assert defs[..|defs|] == defs;
  }

  /** The insert loop: a new public route for every configured name not loaded. */
  method InsertMissing(stored: seq<Route>, routesConfigured: seq<string>, routeNames: seq<string>) returns (store': seq<Route>)
    ensures store' == stored + Inserted(routesConfigured, routeNames)
  {
    store' := stored;
    for i := 0 to |routesConfigured|
      invariant store' == stored + Inserted(routesConfigured[..i], routeNames)
    {
      assert routesConfigured[..i + 1][..i] == routesConfigured[..i];
      var present := Contains(routeNames, routesConfigured[i]);
      if !present {
        ghost var before := Inserted(routesConfigured[..i], routeNames);
        store' := store' + [NewRoute(routesConfigured[i])];
        assert store' == stored + (before + [NewRoute(routesConfigured[i])]);
      }
    }
    assert routesConfigured[..|routesConfigured|] == routesConfigured;
  }

  lemma {:induction false} InsertedCovers(configured: seq<string>, stored: seq<string>)
    ensures forall n :: n in configured ==> n in stored || n in NamesOf(Inserted(configured, stored))
    decreases |configured|
  {
    if configured != [] {
      var init := configured[..|configured| - 1];
      InsertedCovers(init, stored);
      var rest := Inserted(init, stored);
      var n := configured[|configured| - 1];
      if n !in stored {
        assert NamesOf(rest + [NewRoute(n)]) == NamesOf(rest) + [n];
      }
      assert configured == init + [n];
    }
  }

  lemma {:induction false} InsertedNone(configured: seq<string>, stored: seq<string>)
    requires forall i :: 0 <= i < |configured| ==> configured[i] in stored
    ensures Inserted(configured, stored) == []
    decreases |configured|
  {
    if configured != [] {
      InsertedNone(configured[..|configured| - 1], stored);
    }
  }

  lemma NamesOfConcat(a: seq<Route>, b: seq<Route>)
    ensures NamesOf(a + b) == NamesOf(a) + NamesOf(b)
  {
    var l, r := NamesOf(a + b), NamesOf(a) + NamesOf(b);
    assert |l| == |r|;
    forall i | 0 <= i < |l|
      ensures l[i] == r[i]
    {
      if i < |a| {
        assert (a + b)[i] == a[i];
      } else {
        assert (a + b)[i] == b[i - |a|];
      }
    }
  }

  /**
   * After a sync every configured name is in the table, and a second sync
   * over the same configuration inserts nothing.
   */
  lemma SyncIsIdempotent(stored: seq<Route>, defs: seq<RouteDef>)
    ensures
      var once := stored + Inserted(ConfiguredNames(defs), NamesOf(stored));
      && (forall n :: n in ConfiguredNames(defs) ==> n in NamesOf(once))
      && Inserted(ConfiguredNames(defs), NamesOf(once)) == []
  {
    var configured := ConfiguredNames(defs);
    var added := Inserted(configured, NamesOf(stored));
    var once := stored + added;
    InsertedCovers(configured, NamesOf(stored));
    NamesOfConcat(stored, added);
    InsertedNone(configured, NamesOf(once));
  }

  /**
   * The loaded names are not refreshed while inserting, so a name the
   * router lists twice (the DELETE route of `/project/{id}` is registered
   * twice) is inserted twice into an empty table.
   */
  lemma DuplicateRouteInsertedTwice()
    ensures
      var d := RouteDef("/project/{id}", ["DELETE"]);
      Inserted(ConfiguredNames([d, d]), NamesOf([])) == [NewRoute("/project/{id}_DELETE"), NewRoute("/project/{id}_DELETE")]
  {
    var d := RouteDef("/project/{id}", ["DELETE"]);
    assert [d, d][..1] == [d];
    assert [d][..0] == [];
    var names := ["/project/{id}_DELETE", "/project/{id}_DELETE"];
    StringJoin("/project/{id}", "_", "DELETE", "/project/{id}_DELETE");
    assert ConfiguredNames([d, d]) == names;
    assert names[..1] == ["/project/{id}_DELETE"];
    assert names[..1][..0] == [];
  }

  /** Joins three strings character by character. */
  lemma StringJoin(a: string, b: string, c: string, joined: string)
    requires |joined| == |a| + |b| + |c|
    requires forall i :: 0 <= i < |joined| ==> joined[i] == (a + b + c)[i]
    ensures a + b + c == joined
  {
  }

  /** The route table's by-name query: the first route with that name. */
  function FindRoute(routes: seq<Route>, name: string): (r: Option<Route>)
    ensures r.Some? ==> r.value in routes && r.value.name == name
    ensures r.None? <==> forall i :: 0 <= i < |routes| ==> routes[i].name != name
    decreases |routes|
  {
    if routes == [] then None
    else if routes[0].name == name then Some(routes[0])
    else FindRoute(routes[1..], name)
  }

  /** The gate's verdict; `Crash` is a nil dereference inside the middleware. */
  datatype Gate = Pass | Deny(status: Status) | Crash

  /** The request goes through without any session check. */
  predicate IsOpen(r: RouteDef, routes: seq<Route>) {
    RouteName(r).None? || FindRoute(routes, RouteName(r).value).None? || FindRoute(routes, RouteName(r).value).value.permissionLevel <= 0
  }

  /** The level of a protected route. */
  function LevelOf(r: RouteDef, routes: seq<Route>): int
    requires !IsOpen(r, routes)
  {
    FindRoute(routes, RouteName(r).value).value.permissionLevel
  }

  /** Go's `roleKey & level != 0` on 64-bit ints. */
  predicate Meets(key: int, level: int) {
    BitAnd(Bits(key), Bits(level)) != 0
  }

  /**
   * What the session lookup yields for a request: no session cookie (an
   * empty session), a cookie whose token the in-memory session table does
   * not hold (after a logout, after a restart, or a forged token: the lookup
   * yields nil), or the session of a user name.
   */
  datatype SessionLookup = NoCookie | UnknownToken | Known(username: string)

  /** The session lookup; `sessions` maps a token to its session's user name, and `token` is "" without a cookie. */
  function LookupSession(token: string, sessions: map<string, string>): (s: SessionLookup)
    ensures s.NoCookie? <==> token == []
    ensures s.UnknownToken? <==> token != [] && token !in sessions
    ensures s.Known? <==> token != [] && token in sessions
    ensures s.Known? ==> s.username == sessions[token]
  {
    if token == [] then NoCookie
    else if token in sessions then Known(sessions[token])
    else UnknownToken
  }

  /** The session table after a logout with `token`: the token is forgotten. */
  function LoggedOut(token: string, sessions: map<string, string>): (s': map<string, string>)
    ensures token != [] ==> s'.Keys == sessions.Keys - {token}
    ensures token == [] ==> s' == sessions
    ensures forall t :: t in s' ==> s'[t] == sessions[t]
  {
    if token == [] then sessions else sessions - {token}
  }

  /**
   * The middleware as written: the session is dereferenced before it is
   * compared with the empty session, so a cookie with an unknown token is a
   * nil dereference; and the role key is computed from `user.GetRoles()`
   * before `user == nil` is tested, so a session whose user does not exist
   * dereferences nil instead of being refused.
   */
  function CheckPermissionsAsWritten(r: RouteDef, routes: seq<Route>, session: SessionLookup,
                                     users: map<string, User>, roles: seq<Role>): (g: Gate)
    ensures IsOpen(r, routes) ==> g == Pass
    ensures !IsOpen(r, routes) && session.NoCookie? ==> g == Deny(Unauthorized)
    ensures !IsOpen(r, routes) && session.UnknownToken? ==> g == Crash
    ensures !IsOpen(r, routes) && session.Known? && session.username !in users ==> g == Crash
  {
    if IsOpen(r, routes) then Pass
    else if session.NoCookie? then Deny(Unauthorized)
    else if session.UnknownToken? then Crash
    else if session.username !in users then Crash
    else
      var key := RoleKeyOf(users[session.username].roles, roles);
      if key.None? then Crash
      else if Meets(key.value, LevelOf(r, routes)) then Pass
      else Deny(Unauthorized)
  }

  /**
   * The middleware with both nil tests where they are evidently meant to be:
   * a request passes exactly when the route is open, or there is a session
   * whose user exists and whose role key meets the route's level. A name
   * missing from the role table is still a nil dereference.
   */
  function CheckPermissions(r: RouteDef, routes: seq<Route>, session: SessionLookup,
                            users: map<string, User>, roles: seq<Role>): (g: Gate)
    ensures g == Pass <==>
      || IsOpen(r, routes)
      || (&& session.Known? && session.username in users
          && RoleKeyOf(users[session.username].roles, roles).Some?
          && Meets(RoleKeyOf(users[session.username].roles, roles).value, LevelOf(r, routes)))
    ensures g == Crash <==>
      !IsOpen(r, routes) && session.Known? && session.username in users && RoleKeyOf(users[session.username].roles, roles).None?
    ensures g.Deny? ==> g.status == Unauthorized
    ensures !IsOpen(r, routes) && !session.Known? ==> g == Deny(Unauthorized)
  {
    if IsOpen(r, routes) then Pass
    else if !session.Known? then Deny(Unauthorized)
    else if session.username !in users then Deny(Unauthorized)
    else
      var key := RoleKeyOf(users[session.username].roles, roles);
      if key.None? then Crash
      else if Meets(key.value, LevelOf(r, routes)) then Pass
      else Deny(Unauthorized)
  }

  /** The two agree everywhere except on an unknown token and on a session whose user is missing. */
  lemma CorrectionChangesOnlyMissingUser(r: RouteDef, routes: seq<Route>, session: SessionLookup,
                                         users: map<string, User>, roles: seq<Role>)
    ensures session.UnknownToken? || (session.Known? && session.username !in users) ||
      CheckPermissions(r, routes, session, users, roles) == CheckPermissionsAsWritten(r, routes, session, users, roles)
  {
  }

  /** A protected route, a session for a user that no longer exists: the code as written crashes. */
  lemma MissingUserCrashes()
    ensures
      var r := RouteDef("/course/{id}", ["PUT"]);
      var routes := [Route(1, "/course/{id}_PUT", 2)];
      && CheckPermissionsAsWritten(r, routes, Known("ghost"), map[], []) == Crash
      && CheckPermissions(r, routes, Known("ghost"), map[], []) == Deny(Unauthorized)
  {
    var r := RouteDef("/course/{id}", ["PUT"]);
    var routes := [Route(1, "/course/{id}_PUT", 2)];
    StringJoin("/course/{id}", "_", "PUT", "/course/{id}_PUT");
    assert FindRoute(routes, "/course/{id}_PUT") == Some(routes[0]);
  }

  /**
   * A user logs out and the browser sends the old cookie again to a
   * protected route: the token is no longer in the session table, and the
   * code as written crashes where the corrected gate refuses.
   */
  lemma StaleCookieCrashes(token: string, sessions: map<string, string>, users: map<string, User>, roles: seq<Role>)
    requires token != []
    ensures
      var r := RouteDef("/course/{id}", ["PUT"]);
      var routes := [Route(1, "/course/{id}_PUT", 2)];
      var session := LookupSession(token, LoggedOut(token, sessions));
      && session == UnknownToken
      && CheckPermissionsAsWritten(r, routes, session, users, roles) == Crash
      && CheckPermissions(r, routes, session, users, roles) == Deny(Unauthorized)
  {
    var r := RouteDef("/course/{id}", ["PUT"]);
    var routes := [Route(1, "/course/{id}_PUT", 2)];
    StringJoin("/course/{id}", "_", "PUT", "/course/{id}_PUT");
    assert FindRoute(routes, "/course/{id}_PUT") == Some(routes[0]);
  }

  function Learner(roles: seq<string>): User { User(1, "ana", "", "", "", roles, []) }

  /**
   * A student (bit 1) is refused a route at level 2; a student who is also
   * a teaching assistant (bit 2) has key 3 and passes.
   */
  lemma PermissionExample()
    ensures
      var r := RouteDef("/grades", ["GET"]);
      var routes := [Route(1, "/grades_GET", 2)];
      var roles := [Role(1, "student", 1), Role(2, "ta", 2)];
      && CheckPermissions(r, routes, Known("ana"), map["ana" := Learner(["student"])], roles) == Deny(Unauthorized)
      && CheckPermissions(r, routes, Known("ana"), map["ana" := Learner(["student", "ta"])], roles) == Pass
  {
    var r := RouteDef("/grades", ["GET"]);
    var routes := [Route(1, "/grades_GET", 2)];
    var roles := [Role(1, "student", 1), Role(2, "ta", 2)];
    StringJoin("/grades", "_", "GET", "/grades_GET");
    assert FindRoute(routes, "/grades_GET") == Some(routes[0]);
    assert FindRole(roles, "student") == Some(roles[0]);
    assert FindRole(roles, "ta") == Some(roles[1]) by {
      assert roles[1..] == [roles[1]];
    }
    assert ["student"][..0] == [];
    assert ["student", "ta"][..1] == ["student"];
    assert RoleKeyOf(["student"], roles) == Some(1);
    assert RoleKeyOf(["student", "ta"], roles) == Some(3);
    assert BitAnd(1, 2) == 0;
    assert BitAnd(3, 2) == 2 by {
      assert BitAnd(1, 1) == 1;
    }
  }

  /**
   * Because role values are summed, listing the student role twice gives key
   * 2 and passes a level-2 route the single role is refused.
   */
  lemma DuplicateRoleBorrowsBit()
    ensures
      var r := RouteDef("/grades", ["GET"]);
      var routes := [Route(1, "/grades_GET", 2)];
      var roles := [Role(1, "student", 1), Role(2, "ta", 2)];
      && CheckPermissions(r, routes, Known("ana"), map["ana" := Learner(["student"])], roles) == Deny(Unauthorized)
      && CheckPermissions(r, routes, Known("ana"), map["ana" := Learner(["student", "student"])], roles) == Pass
  {
    var r := RouteDef("/grades", ["GET"]);
    var routes := [Route(1, "/grades_GET", 2)];
    var roles := [Role(1, "student", 1), Role(2, "ta", 2)];
    StringJoin("/grades", "_", "GET", "/grades_GET");
    assert FindRoute(routes, "/grades_GET") == Some(routes[0]);
    assert FindRole(roles, "student") == Some(roles[0]);
    RoleKeyDuplicate("student", roles);
    assert ["student"][..0] == [];
    assert RoleKeyOf(["student"], roles) == Some(1);
    assert BitAnd(1, 2) == 0;
    assert BitAnd(2, 2) == 2 by {
      assert BitAnd(1, 1) == 1;
    }
  }

  /**
   * With roles that are distinct single bits and a non-negative level, a
   * request to a protected route by an existing user passes exactly when
   * one of the user's roles carries a bit of the level.
   */
  lemma DistinctBitGate(r: RouteDef, routes: seq<Route>, username: string, users: map<string, User>,
                        roles: seq<Role>, values: seq<nat>, exps: seq<nat>)
    requires !IsOpen(r, routes) && username in users
    requires HasValues(users[username].roles, roles, values)
    requires |exps| == |values| && forall i :: 0 <= i < |values| ==> values[i] == Pow2(exps[i])
    requires forall i, j :: 0 <= i < j < |exps| ==> exps[i] != exps[j]
    requires forall i :: 0 <= i < |exps| ==> exps[i] < 64
    ensures CheckPermissions(r, routes, Known(username), users, roles) == Pass <==>
      exists i :: 0 <= i < |values| && BitAnd(values[i], Bits(LevelOf(r, routes))) != 0
  {
    DistinctBitRoles(users[username].roles, roles, values, exps, Bits(LevelOf(r, routes)));
    DistinctPowersDisjoint(values, exps);
    DisjointTotalIsOr(values);
    PowersFitWord(values, exps);
  }

  /** Distinct bits below 64 sum to less than a 64-bit word. */
  lemma PowersFitWord(values: seq<nat>, exps: seq<nat>)
    requires |exps| == |values| && forall i :: 0 <= i < |values| ==> values[i] == Pow2(exps[i])
    requires forall i, j :: 0 <= i < j < |exps| ==> exps[i] != exps[j]
    requires forall i :: 0 <= i < |exps| ==> exps[i] < 64
    ensures OrOf(values) < Word
  {
    forall i | 0 <= i < |values|
      ensures values[i] < Pow2(64)
    {
      Pow2Below(exps[i], 64);
    }
    OrOfBelow(values, 64);
    Pow2Word();
  }

  lemma {:induction false} Pow2Below(e: nat, n: nat)
    requires e < n
    ensures Pow2(e) < Pow2(n)
    decreases n
  {
    if e < n - 1 {
      Pow2Below(e, n - 1);
    }
  }

  lemma {:induction false} Pow2Add(a: nat, b: nat)
    ensures Pow2(a + b) == Pow2(a) * Pow2(b)
    decreases b
  {
    if b > 0 {
      Pow2Add(a, b - 1);
    }
  }

  lemma Pow2Word()
    ensures Pow2(64) == Word
  {
    assert Pow2(4) == 16;
    Pow2Squared(4, 16);
    Pow2Squared(8, 0x100);
    Pow2Squared(16, 0x1_0000);
    Pow2Squared(32, 0x1_0000_0000);
  }

  lemma Pow2Squared(n: nat, p: nat)
    requires Pow2(n) == p
    ensures Pow2(n + n) == p * p
  {
    Pow2Add(n, n);
  }

  lemma {:induction false} OrOfBelow(values: seq<nat>, n: nat)
    requires forall i :: 0 <= i < |values| ==> values[i] < Pow2(n)
    ensures OrOf(values) < Pow2(n)
    decreases |values|
  {
    if values != [] {
      OrOfBelow(values[..|values| - 1], n);
      OrBelow(OrOf(values[..|values| - 1]), values[|values| - 1], n);
    }
  }

  lemma {:induction false} OrBelow(a: nat, b: nat, n: nat)
    requires a < Pow2(n) && b < Pow2(n)
    ensures BitOr(a, b) < Pow2(n)
    decreases n
  {
    if n > 0 && a != 0 && b != 0 {
      OrBelow(a / 2, b / 2, n - 1);
    }
  }
}

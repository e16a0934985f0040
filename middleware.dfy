/**
 * The decision `PermissionMiddleware` (`Project_B/middleware.py`) makes for a request: let it
 * through to the view, or redirect it (with the flash message it leaves), as a function of the
 * path and of the user's `is_authenticated`, `is_superuser` and `is_staff` flags.
 */
module Middleware {
  import opened Common

  const UrlPermissions: seq<(string, string)> := [("/books/", "books.can_view_books"), ("/users/", "users.can_view_users")]
  const AdminPrefixes: seq<string> := ["/admin-panel/"]
  const CustomerOnlyPaths: seq<string> := ["/books/", "/carts/", "/delivery/", "/orders/", "/about/"]
  const LoggedOutOnlyPaths: seq<string> :=
    ["/login/", "/signup/", "/reset_password/", "/reset_password_sent/", "/reset_password_complete/"]
  const ExemptPathsExact: seq<string> := ["/", "/about/"]
  const ExemptPathsPrefix: seq<string> := ["/media/", "/static/", "/__reload__/", "/reset/", "/activate/"]
  const SkipPrefixes: seq<string> := ["/admin/", "/media/", "/__reload__/"]

  const SuperuserOnCustomerRoute := "Superusers cannot access customer routes."
  const NotAdmin := "You are not allowed to access the admin panel."
  const StaffOnCustomerRoute := "Admins and staff cannot access customer routes."

  datatype User = User(authenticated: bool, superuser: bool, staff: bool)

  /** `get_response(request)` (`Proceed`), or `redirect(target)` after the flash message, if any. */
  datatype Decision = Proceed | Redirect(target: string, message: Option<string>)

  /** `any(path.startswith(p) for p in prefixes)`. */
  predicate StartsWithAny(path: string, prefixes: seq<string>)
  {
    exists p :: p in prefixes && p <= path
  }

  /** `should_skip_checks(path)`. */
  predicate ShouldSkipChecks(path: string)
  {
    StartsWithAny(path, SkipPrefixes)
  }

  predicate Exempt(path: string)
  {
    path in ExemptPathsExact || StartsWithAny(path, ExemptPathsPrefix)
  }

  /** `PermissionMiddleware.__call__`: the rules in the order the source applies them. */
  function Decide(path: string, user: User): (d: Decision)
    ensures ShouldSkipChecks(path) ==> d == Proceed
    ensures d.Redirect? ==> d.target in {"admin-book-list", "home", "login_view", "admin:index"}
    ensures d == Redirect("login_view", None) ==> !user.authenticated
  {
    if ShouldSkipChecks(path) then Proceed
    else if user.authenticated && user.superuser then
      if StartsWithAny(path, CustomerOnlyPaths) then Redirect("admin-book-list", Some(SuperuserOnCustomerRoute))
      else Proceed
    else if path in LoggedOutOnlyPaths then
      if user.authenticated then Redirect("home", None) else Proceed
    else if Exempt(path) then Proceed
    else if !user.authenticated then Redirect("login_view", None)
    else if StartsWithAny(path, AdminPrefixes) && !user.superuser then Redirect("home", Some(NotAdmin))
    else if user.authenticated && (user.staff || user.superuser) && StartsWithAny(path, CustomerOnlyPaths) then
      Redirect("admin:index", Some(StaffOnCustomerRoute))
    else Proceed
  }

  /** `get_required_permission(path)`: the permission of the first prefix in `table` that matches. */
  function RequiredPermission(table: seq<(string, string)>, path: string): (r: Option<string>)
    ensures r.None? <==> forall k :: 0 <= k < |table| ==> !(table[k].0 <= path)
    ensures r.Some? ==> exists k :: 0 <= k < |table| && table[k].0 <= path && r.value == table[k].1
                                    && forall k' :: 0 <= k' < k ==> !(table[k'].0 <= path)
  {
    if table == [] then None
    else if table[0].0 <= path then
      Some(table[0].1)
    else
      var r := RequiredPermission(table[1..], path);
      assert forall k :: 1 <= k < |table| ==> table[k] == table[1..][k - 1];
      if r.Some? then
        var k :| 0 <= k < |table[1..]| && table[1..][k].0 <= path && r.value == table[1..][k].1
                 && forall k' :: 0 <= k' < k ==> !(table[1..][k'].0 <= path);
        assert table[k + 1] == table[1..][k];
        r
      else r
  }

  /** A superuser passes everywhere except on the customer routes, and never has to log in. */
  lemma SuperuserDecisions(path: string, user: User)
    requires user.authenticated && user.superuser
    ensures Decide(path, user) == Proceed <==> ShouldSkipChecks(path) || !StartsWithAny(path, CustomerOnlyPaths)
    ensures Decide(path, user).Redirect? ==> Decide(path, user).target == "admin-book-list"
  {
  }

  /** An anonymous visitor gets through exactly the skipped, logged-out-only and exempt paths. */
  lemma AnonymousDecisions(path: string, user: User)
    requires !user.authenticated
    ensures Decide(path, user) == Proceed <==> ShouldSkipChecks(path) || path in LoggedOutOnlyPaths || Exempt(path)
    ensures Decide(path, user) != Proceed ==> Decide(path, user) == Redirect("login_view", None)
  {
  }

  /** A logged-in ordinary user is sent home from the login and sign-up pages. */
  lemma LoggedInLeavesLoginPages(path: string, user: User)
    requires user.authenticated && !user.superuser && path in LoggedOutOnlyPaths
    ensures Decide(path, user) == Redirect("home", None)
  {
    assert !ShouldSkipChecks(path) by {
      forall p | p in SkipPrefixes ensures !(p <= path) {
        assert p[1] != path[1] || p[2] != path[2] || p[3] != path[3];
      }
    }
  }

  /** Only superusers get into the admin panel; others are sent home, or to log in. */
  lemma AdminPanelOnlyForSuperusers(rest: string, user: User)
    ensures var d := Decide("/admin-panel/" + rest, user);
      && (d == Proceed <==> user.authenticated && user.superuser)
      && (user.authenticated && !user.superuser ==> d == Redirect("home", Some(NotAdmin)))
  {
    var path := "/admin-panel/" + rest;
    assert path[..13] == "/admin-panel/";
    assert path[6] == '-' && path[1] == 'a' && path[2] == 'd';
    assert !ShouldSkipChecks(path);
    assert !StartsWithAny(path, CustomerOnlyPaths);
    assert path !in LoggedOutOnlyPaths;
    assert !Exempt(path);
    assert StartsWithAny(path, AdminPrefixes) by {
      var p := AdminPrefixes[0];
      assert p == path[..|p|];
      assert p in AdminPrefixes && p <= path;
    }
  }

  /**
   * The kinds of path the rules tell apart overlap only where the order of the rules decides:
   * skipped and exempt paths are never logged-out-only pages or in the admin panel, a customer
   * route is neither skipped, a logged-out-only page nor in the admin panel, and no logged-out-only
   * page is in the admin panel.
   */
  lemma PathClassesDisjoint(path: string)
    ensures ShouldSkipChecks(path) ==>
      path !in LoggedOutOnlyPaths && !StartsWithAny(path, AdminPrefixes) && !StartsWithAny(path, CustomerOnlyPaths)
    ensures Exempt(path) ==> path !in LoggedOutOnlyPaths && !StartsWithAny(path, AdminPrefixes)
    ensures StartsWithAny(path, CustomerOnlyPaths) ==> path !in LoggedOutOnlyPaths && !StartsWithAny(path, AdminPrefixes)
    ensures StartsWithAny(path, AdminPrefixes) ==> path !in LoggedOutOnlyPaths
  {
    var guarded := SkipPrefixes + ExemptPathsPrefix + CustomerOnlyPaths;
    var barred := LoggedOutOnlyPaths + AdminPrefixes;
    forall p, q | p in guarded && q in barred ensures !(p <= path && q <= path) {
      assert p[1] != q[1] || p[2] != q[2] || p[6] != q[6];
    }
    forall p, q | p in SkipPrefixes && q in CustomerOnlyPaths ensures !(p <= path && q <= path) {
      assert p[1] != q[1] || p[2] != q[2];
    }
    if path in LoggedOutOnlyPaths || StartsWithAny(path, AdminPrefixes) {
      var q: string;
      if path in LoggedOutOnlyPaths {
        q := path;
      } else {
        q :| q in AdminPrefixes && q <= path;
      }
      assert q in barred && q <= path;
      forall p | p in SkipPrefixes || p in ExemptPathsPrefix || p in CustomerOnlyPaths ensures !(p <= path) {
        assert p in guarded;
      }
      assert path != "/" && path != "/about/" by {
        assert q[1] != 'a' || q[2] != 'b';
      }
      if path in LoggedOutOnlyPaths {
        forall a | a in AdminPrefixes ensures !(a <= path) {
          assert a[1] != path[1];
        }
      }
    }
  }

  /**
   * A logged-in user who is not a superuser passes everywhere except on the logged-out-only pages
   * (sent home), in the admin panel (sent home with `NotAdmin`) and, for staff, on a customer route
   * that is not exempt; an ordinary customer is only ever sent home.
   */
  lemma LoggedInDecisions(path: string, user: User)
    requires user.authenticated && !user.superuser
    ensures Decide(path, user) == Proceed <==>
      && path !in LoggedOutOnlyPaths
      && !StartsWithAny(path, AdminPrefixes)
      && (user.staff ==> !StartsWithAny(path, CustomerOnlyPaths) || Exempt(path))
    ensures path in LoggedOutOnlyPaths ==> Decide(path, user) == Redirect("home", None)
    ensures StartsWithAny(path, AdminPrefixes) ==> Decide(path, user) == Redirect("home", Some(NotAdmin))
    ensures !user.staff && Decide(path, user).Redirect? ==> Decide(path, user).target == "home"
  {
    PathClassesDisjoint(path);
    if StartsWithAny(path, AdminPrefixes) {
      assert !ShouldSkipChecks(path) && path !in LoggedOutOnlyPaths && !Exempt(path);
    }
  }

  /** Staff are sent to the Django admin from every customer route that is not exempt. */
  lemma StaffOnCustomerRoutes(path: string, user: User)
    requires user.authenticated && user.staff && !user.superuser
    requires StartsWithAny(path, CustomerOnlyPaths) && !Exempt(path)
    ensures Decide(path, user) == Redirect("admin:index", Some(StaffOnCustomerRoute))
  {
    PathClassesDisjoint(path);
  }

  /** `/about/` is exempt, and the exemption is reached before the staff rule: only superusers are turned away. */
  lemma AboutIsOpen(user: User)
    ensures Decide("/about/", user) == Proceed <==> !(user.authenticated && user.superuser)
  {
    PathClassesDisjoint("/about/");
    assert StartsWithAny("/about/", CustomerOnlyPaths) by {
      var p := CustomerOnlyPaths[4];
      assert p in CustomerOnlyPaths && p <= "/about/";
    }
  }

  /** The two mapped prefixes resolve to their permissions; anything else needs none. */
  lemma PermissionTable(rest: string)
    ensures RequiredPermission(UrlPermissions, "/books/" + rest) == Some("books.can_view_books")
    ensures RequiredPermission(UrlPermissions, "/users/" + rest) == Some("users.can_view_users")
    ensures RequiredPermission(UrlPermissions, "/orders/" + rest) == None
  {
    assert UrlPermissions[0].0 <= "/books/" + rest;
    assert ("/users/" + rest)[1] == 'u';
    assert ("/orders/" + rest)[1] == 'o';
  }
}

/**
 * The client-side access decision: the `useAuth` predicates and the
 * `RequireAuth` route guard with React stripped away. The signed-in state
 * (`isGlobal`, `user`, `features`, `permissions`) and the deployment
 * configuration are plain values; the guard is a function from them, the
 * route's `permission` and its `display` flag to what gets rendered.
 *
 * An absent `permission` or `display` prop and the empty string are both
 * falsy in the source and are both written `""` here. An absent `features`
 * value is `Null`.
 */
module AccessControl {
  import opened Wrappers
  import opened Payload

  // ---------------------------------------------------------------------------
  // Comma-separated permission ids

  /** `s.split(',')`: the pieces between commas, untrimmed; always at least one piece. */
  function Split(s: string): (r: seq<string>)
    ensures |r| >= 1
    ensures forall i :: 0 <= i < |r| ==> ',' !in r[i]
    decreases |s|
  {
    if |s| == 0 then [""]
    else
      var rest := Split(s[1..]);
      if s[0] == ',' then [""] + rest
      else [[s[0]] + rest[0]] + rest[1..]
  }

  /** `pieces.join(',')`. */
  function Join(pieces: seq<string>): string
    decreases |pieces|
  {
    if |pieces| == 0 then ""
    else if |pieces| == 1 then pieces[0]
    else pieces[0] + "," + Join(pieces[1..])
  }

  /** Joining the pieces back with commas gives the original text. */
  lemma {:induction false} JoinSplit(s: string)
    ensures Join(Split(s)) == s
    decreases |s|
  {
    if |s| > 0 {
      var rest := Split(s[1..]);
      JoinSplit(s[1..]);
      if s[0] == ',' {
        assert Split(s) == [""] + rest;
        assert Join(Split(s)) == "" + "," + Join(rest);
        assert s == [s[0]] + s[1..];
      } else {
        var pieces := [[s[0]] + rest[0]] + rest[1..];
        assert Split(s) == pieces;
        if |rest| == 1 {
          assert Join(pieces) == [s[0]] + rest[0];
        } else {
          assert pieces[1..] == rest[1..];
          assert Join(rest) == rest[0] + "," + Join(rest[1..]);
          assert Join(pieces) == ([s[0]] + rest[0]) + "," + Join(rest[1..]);
        }
        assert s == [s[0]] + s[1..];
      }
    }
  }

  /** A comma-free prefix joins the first piece of what follows it. */
  lemma {:induction false} SplitCommaFree(a: string, s: string)
    requires ',' !in a
    ensures Split(a + s) == [a + Split(s)[0]] + Split(s)[1..]
    decreases |a|
  {
    if |a| == 0 {
      assert a + s == s && a + Split(s)[0] == Split(s)[0];
      assert Split(s) == [Split(s)[0]] + Split(s)[1..];
    } else {
      assert ',' !in a[1..] by {
        assert forall k :: 0 <= k < |a[1..]| ==> a[1..][k] == a[k + 1];
      }
      SplitCommaFree(a[1..], s);
      var rest := Split(a[1..] + s);
      assert (a + s)[1..] == a[1..] + s;
      assert (a + s)[0] == a[0] && a[0] != ',';
      assert Split(a + s) == [[a[0]] + rest[0]] + rest[1..];
      assert rest[0] == a[1..] + Split(s)[0] && rest[1..] == Split(s)[1..];
      assert [a[0]] + (a[1..] + Split(s)[0]) == a + Split(s)[0];
    }
  }

  /** Splitting comma-free pieces joined with commas gives the pieces back. */
  lemma {:induction false} SplitJoin(pieces: seq<string>)
    requires |pieces| >= 1 && forall i :: 0 <= i < |pieces| ==> ',' !in pieces[i]
    ensures Split(Join(pieces)) == pieces
    decreases |pieces|
  {
    var head := pieces[0];
    if |pieces| == 1 {
      SplitCommaFree(head, "");
      assert head + "" == head;
    } else {
      var tail := pieces[1..];
      SplitJoin(tail);
      var rest := "," + Join(tail);
      assert Split(rest) == [""] + tail by {
        assert rest[1..] == Join(tail);
      }
      assert Join(pieces) == head + rest;
      SplitCommaFree(head, rest);
      assert head + "" == head;
      assert pieces == [head] + tail;
    }
  }

  /** A single id without a comma is one piece. */
  lemma SinglePiece(id: string)
    requires ',' !in id
    ensures Split(id) == [id]
  {
    SplitJoin([id]);
  }

  /** `pieces.some((pid) => permissions.includes(pid))`. */
  function SomeHeld(pieces: seq<string>, permissions: seq<string>): (r: bool)
    ensures r <==> exists i :: 0 <= i < |pieces| && pieces[i] in permissions
    decreases |pieces|
  {
    if |pieces| == 0 then false
    else if pieces[0] in permissions then true
    else
      var r := SomeHeld(pieces[1..], permissions);
      assert forall i :: 1 <= i < |pieces| ==> pieces[i] == pieces[1..][i - 1];
      r
  }

  // ---------------------------------------------------------------------------
  // useAuth

  /** The signed-in user record; `""` stands for a missing `activeWorkspaceId`. */
  datatype User = User(activeWorkspaceId: string)

  /**
   * The `auth` slice of the store. `permissions` is `None` when it is not an
   * array (unset); `features` is any value, `Null` when unset.
   */
  datatype Auth = Auth(isGlobal: bool, user: Option<User>, features: Json, permissions: Option<seq<string>>)

  /** `hasPermission(permissionId)`. */
  function HasPermission(auth: Auth, permissionId: string): (r: bool)
    ensures auth.isGlobal ==> r
    ensures !auth.isGlobal && permissionId == "" ==> !r
    ensures !auth.isGlobal && (auth.permissions.None? || auth.permissions.value == []) ==> !r
    ensures !auth.isGlobal && permissionId != "" && auth.permissions.Some? && auth.permissions.value != [] ==>
              var pieces := Split(permissionId);
              var held := auth.permissions.value;
              (r <==> exists i :: 0 <= i < |pieces| && pieces[i] in held)
  {
    if auth.isGlobal then true
    else if permissionId == "" then false
    else if auth.permissions.Some? && auth.permissions.value != [] then
      SomeHeld(Split(permissionId), auth.permissions.value)
    else false
  }

  /**
   * A non-global user holds a comma-separated list of ids (none empty or
   * containing a comma) exactly when they hold at least one of them.
   */
  lemma HeldList(auth: Auth, ids: seq<string>)
    requires !auth.isGlobal && auth.permissions.Some? && auth.permissions.value != []
    requires |ids| >= 1 && forall i :: 0 <= i < |ids| ==> ',' !in ids[i] && ids[i] != ""
    ensures HasPermission(auth, Join(ids)) <==> exists i :: 0 <= i < |ids| && ids[i] in auth.permissions.value
  {
    SplitJoin(ids);
    assert Split("") == [""];
    assert ids[0] != "";
  }

  /** A single id is held by a non-global user exactly when it is in their non-empty permission list. */
  lemma HeldSingle(auth: Auth, id: string)
    requires !auth.isGlobal && id != "" && ',' !in id
    ensures HasPermission(auth, id) <==> auth.permissions.Some? && id in auth.permissions.value
  {
    SinglePiece(id);
  }

  /** `hasAssignedWorkspace(workspaceId)`; `None` stands for an undefined argument. */
  function HasAssignedWorkspace(auth: Auth, workspaceId: Option<string>): (r: bool)
    ensures auth.isGlobal ==> r
    ensures !auth.isGlobal ==>
              (r <==> workspaceId.Some? && workspaceId.value == (if auth.user.Some? then auth.user.value.activeWorkspaceId else ""))
  {
    if auth.isGlobal then true
    else
      var active := if auth.user.Some? then auth.user.value.activeWorkspaceId else "";
      workspaceId == Some(active)
  }

  /**
   * `!features || Array.isArray(features) || Object.keys(features).length === 0`
   * fails and `features` has `display` as an own key whose value is `true` or
   * `'true'`. A truthy scalar never passes: booleans and numbers have no own
   * keys, and the own keys of a string are its indices and `length`, whose
   * values are one-character strings and a number.
   */
  predicate FeatureEnabled(features: Json, display: string) {
    features.Obj? && |features.fields| > 0
    && var flag := Find(features.fields, display);
       flag == Some(Bool(true)) || flag == Some(Str("true"))
  }

  /** Only a non-empty object can enable a feature, and only with an own key set to `true` or `'true'`. */
  lemma FeatureEnabledShape(features: Json, display: string)
    ensures FeatureEnabled(features, display) ==>
              features.Obj? && exists i :: 0 <= i < |features.fields| && features.fields[i].0 == display
                                           && (features.fields[i].1 == Bool(true) || features.fields[i].1 == Str("true"))
    ensures !features.Obj? || features.fields == [] ==> !FeatureEnabled(features, display)
  {
  }

  /** A flag set to anything other than `true` or `'true'` (say `false`, `1` or `'yes'`) leaves the feature off. */
  lemma OtherFlagsDisabled(fields: seq<(string, Json)>, display: string, flag: Json)
    requires |fields| > 0 && fields[0] == (display, flag) && flag != Bool(true) && flag != Str("true")
    ensures !FeatureEnabled(Obj(fields), display)
  {
  }

  /** `hasDisplay(display)`. */
  function HasDisplay(auth: Auth, display: string): (r: bool)
    ensures display == "" || auth.isGlobal ==> r
    ensures display != "" && !auth.isGlobal ==> (r <==> FeatureEnabled(auth.features, display))
  {
    if display == "" then true
    else if auth.isGlobal then true
    else if !Truthy(auth.features) || auth.features.Arr? || !auth.features.Obj? || |auth.features.fields| == 0 then false
    else if HasKey(auth.features.fields, display) then
      var flag := Find(auth.features.fields, display).value;
      flag == Str("true") || flag == Bool(true)
    else false
  }

  // ---------------------------------------------------------------------------
  // RequireAuth

  /** The `reason` carried in the redirect state to `/unauthorized`. */
  datatype Reason =
    | EnterpriseOnlyFeature
    | OwnerRequired
    | FeatureNotAvailable
    | NoPermissionsAssigned
    | MissingPermission
    | AccessDenied

  function ReasonText(reason: Reason): string {
    match reason
    case EnterpriseOnlyFeature => "enterprise_only_feature"
    case OwnerRequired => "owner_required"
    case FeatureNotAvailable => "feature_not_available"
    case NoPermissionsAssigned => "no_permissions_assigned"
    case MissingPermission => "missing_permission"
    case AccessDenied => "access_denied"
  }

  /** Distinct reasons are reported with distinct texts. */
  lemma ReasonTextInjective(a: Reason, b: Reason)
    ensures ReasonText(a) == ReasonText(b) ==> a == b
  {
  }

  /** What the guard renders: `null`, a redirect to `/login`, a redirect to `/unauthorized`, or the route's children. */
  datatype Outcome = Nothing | Login | Unauthorized(reason: Reason) | Children

  /** `useConfig()`. */
  datatype Config = Config(loading: bool, isOpenSource: bool, isCloud: bool, isEnterpriseLicensed: bool)

  const SsoConfig := "feat:sso-config"

  /** `checkFeatureFlag(features, display, children, ...)`. */
  function CheckFeatureFlag(features: Json, display: string): (r: Outcome)
    ensures r == Children || r == Unauthorized(FeatureNotAvailable)
    ensures r == Children <==> FeatureEnabled(features, display)
  {
    if !Truthy(features) || features.Arr? || !features.Obj? || |features.fields| == 0 then Unauthorized(FeatureNotAvailable)
    else if HasKey(features.fields, display) then
      var flag := Find(features.fields, display).value;
      if flag == Str("true") || flag == Bool(true) then Children else Unauthorized(FeatureNotAvailable)
    else Unauthorized(FeatureNotAvailable)
  }

  /** For a non-global user the guard's feature check and `hasDisplay` agree on every non-empty flag. */
  lemma FeatureCheckMatchesHasDisplay(auth: Auth, display: string)
    requires !auth.isGlobal && display != ""
    ensures CheckFeatureFlag(auth.features, display) == Children <==> HasDisplay(auth, display)
  {
  }

  /** `RequireAuth({ permission, display, children })`. */
  function RequireAuth(config: Config, auth: Auth, permission: string, display: string): (r: Outcome)
    ensures config.loading <==> r == Nothing
    ensures !config.loading ==> (r == Login <==> auth.user.None?)
    ensures r.Unauthorized? && r.reason == AccessDenied <==>
              !config.loading && auth.user.Some? && !config.isOpenSource && !config.isCloud && !config.isEnterpriseLicensed
    ensures r.Unauthorized? && (r.reason == EnterpriseOnlyFeature || r.reason == OwnerRequired) ==> config.isOpenSource
    ensures r.Unauthorized? && (r.reason == FeatureNotAvailable || r.reason == NoPermissionsAssigned) ==> display != ""
  {
    if config.loading then Nothing
    else if auth.user.None? then Login
    else if config.isOpenSource then
      if display == SsoConfig then Unauthorized(EnterpriseOnlyFeature)
      else if display != "" then (if auth.isGlobal then Children else Unauthorized(OwnerRequired))
      else Children
    else if config.isCloud || config.isEnterpriseLicensed then
      if display != "" then
        if auth.isGlobal then CheckFeatureFlag(auth.features, display)
        else if auth.permissions.None? || auth.permissions.value == [] then Unauthorized(NoPermissionsAssigned)
        else if permission == "" || HasPermission(auth, permission) then CheckFeatureFlag(auth.features, display)
        else Unauthorized(MissingPermission)
      else if permission != "" && !HasPermission(auth, permission) && !auth.isGlobal then Unauthorized(MissingPermission)
      else Children
    else Unauthorized(AccessDenied)
  }

  /** A signed-out visitor is sent to `/login` whatever the platform, permission or flag. */
  lemma SignedOutGoesToLogin(config: Config, auth: Auth, permission: string, display: string)
    requires !config.loading && auth.user.None?
    ensures RequireAuth(config, auth, permission, display) == Login
  {
  }

  /** On open source only the flag and `isGlobal` matter, and open source is decided before cloud or enterprise. */
  lemma OpenSourceDecision(config: Config, auth: Auth, permission: string, display: string)
    requires !config.loading && auth.user.Some? && config.isOpenSource
    ensures var r := RequireAuth(config, auth, permission, display);
            && (display == SsoConfig ==> r == Unauthorized(EnterpriseOnlyFeature))
            && (display != SsoConfig && display != "" ==> r == (if auth.isGlobal then Children else Unauthorized(OwnerRequired)))
            && (display == "" ==> r == Children)
            && r == RequireAuth(config.(isCloud := false, isEnterpriseLicensed := false), auth, permission, display)
  {
  }

  /** Cloud or enterprise, flagged route: the decision table in order. */
  lemma FlaggedRouteDecision(config: Config, auth: Auth, permission: string, display: string)
    requires !config.loading && auth.user.Some? && !config.isOpenSource && (config.isCloud || config.isEnterpriseLicensed)
    requires display != ""
    ensures var r := RequireAuth(config, auth, permission, display);
            && (auth.isGlobal ==> r == CheckFeatureFlag(auth.features, display))
            && (!auth.isGlobal && (auth.permissions.None? || auth.permissions.value == []) ==> r == Unauthorized(NoPermissionsAssigned))
            && (!auth.isGlobal && auth.permissions.Some? && auth.permissions.value != [] ==>
                  r == if permission == "" || HasPermission(auth, permission) then CheckFeatureFlag(auth.features, display)
                       else Unauthorized(MissingPermission))
  {
  }

  /** Cloud or enterprise, unflagged route: refused only for a required permission a non-global user lacks. */
  lemma UnflaggedRouteDecision(config: Config, auth: Auth, permission: string)
    requires !config.loading && auth.user.Some? && !config.isOpenSource && (config.isCloud || config.isEnterpriseLicensed)
    ensures var r := RequireAuth(config, auth, permission, "");
            r == Children || r == Unauthorized(MissingPermission)
    ensures RequireAuth(config, auth, permission, "") == Unauthorized(MissingPermission) <==>
              permission != "" && !HasPermission(auth, permission) && !auth.isGlobal
  {
  }

  /**
   * When the guard renders the route, independently of the order of checks:
   * signed in, config loaded, and either open source with no flag or with a
   * flag other than SSO held by a global user, or cloud/enterprise with a
   * held-or-absent permission (or a global user) and, for a flagged route, an
   * enabled feature and for a non-global user a non-empty permission list.
   */
  predicate Grants(config: Config, auth: Auth, permission: string, display: string) {
    && !config.loading
    && auth.user.Some?
    && if config.isOpenSource then
         display == "" || (display != SsoConfig && auth.isGlobal)
       else
         && (config.isCloud || config.isEnterpriseLicensed)
         && (auth.isGlobal || permission == "" || HasPermission(auth, permission))
         && (display != "" ==> FeatureEnabled(auth.features, display)
                               && (auth.isGlobal || (auth.permissions.Some? && auth.permissions.value != [])))
  }

  /** The guard renders the children exactly when `Grants` holds. */
  lemma ChildrenIffGranted(config: Config, auth: Auth, permission: string, display: string)
    ensures RequireAuth(config, auth, permission, display) == Children <==> Grants(config, auth, permission, display)
  {
  }

  /** A global user on cloud or enterprise sees every route whose flag, if any, is enabled. */
  lemma GlobalUserOnCloud(config: Config, auth: Auth, permission: string, display: string)
    requires !config.loading && auth.user.Some? && auth.isGlobal && !config.isOpenSource && (config.isCloud || config.isEnterpriseLicensed)
    ensures RequireAuth(config, auth, permission, display) == Children <==> display == "" || FeatureEnabled(auth.features, display)
  {
  }
}

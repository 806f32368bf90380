/** Token authentication, inherited permissions, and the approval check of a gate. */
module Auth {
  import opened Wrappers
  import opened TextOrder

  datatype Profile = Profile(login: string, role: string)

  datatype Role = Role(permissions: seq<string>, inherits: Option<string>, budget: Option<int>)

  /** The user registry and the role table, as read from the two YAML files. */
  datatype Directory = Directory(users: map<string, Profile>, roles: map<string, Role>)

  datatype User = User(login: string, role: string, permissions: seq<string>, budget: int)

  datatype Denial =
    | UnknownToken
    | UnknownRole
    | EndlessRole
    | MissingPermission
    | FourEyesViolation
    | UnknownRun
    | NotAwaiting
    | UnknownGate

  const DEFAULT_BUDGET := 50_000

  // ---- permission expansion ----------------------------------------------

  /** A role that is not in the table has no permissions and no parent. */
  function Own(roles: map<string, Role>, role: string): set<string> {
    if role in roles then set p | p in roles[role].permissions else {}
  }

  function Parent(roles: map<string, Role>, role: string): Option<string> {
    if role in roles && roles[role].inherits.Some? && roles[role].inherits.value != ""
    then roles[role].inherits else None
  }

  /** The table says that `role` inherits from `parent`; an empty name counts as none. */
  ghost predicate Inherits(roles: map<string, Role>, role: string, parent: string) {
    role in roles && roles[role].inherits == Some(parent) && parent != ""
  }

  /** `path` climbs from a role through its ancestors. */
  ghost predicate Lineage(roles: map<string, Role>, path: seq<string>) {
    path != [] && forall i :: 0 <= i < |path| - 1 ==> Inherits(roles, path[i], path[i + 1])
  }

  /** The role and all its ancestors, or `None` if the climb comes back to a role in
      `seen` or to one it has passed. */
  function Climb(roles: map<string, Role>, role: string, seen: set<string>): Option<seq<string>>
    decreases |roles.Keys - seen|
  {
    if role in seen then None
    else match Parent(roles, role)
         case None => Some([role])
         case Some(parent) =>
           assert roles.Keys - (seen + {role}) < roles.Keys - seen by { assert role in roles.Keys - seen; }
           SmallerSet(roles.Keys - (seen + {role}), roles.Keys - seen);
           match Climb(roles, parent, seen + {role})
           case None => None
           case Some(line) => Some([role] + line)
  }

  lemma SmallerSet<T>(a: set<T>, b: set<T>)
    requires a < b
    ensures |a| < |b|
  {
    assert b == a + (b - a);
  }

  /** The recursion over the ancestors of a role comes to an end. */
  predicate Ends(roles: map<string, Role>, role: string) {
    Climb(roles, role, {}).Some?
  }

  /** No role inherits from itself, directly or through others. */
  ghost predicate Acyclic(roles: map<string, Role>) {
    forall path :: Lineage(roles, path) && |path| > 1 ==> path[0] != path[|path| - 1]
  }

  ghost predicate Repeats(path: seq<string>) {
    exists i, j :: 0 <= i < j < |path| && path[i] == path[j]
  }

  lemma RepeatsInTail(path: seq<string>)
    requires path != [] && Repeats(path)
    ensures Repeats(path[1..]) || path[0] in path[1..]
  {
    var i, j :| 0 <= i < j < |path| && path[i] == path[j];
    assert path[1..][j - 1] == path[j];
    if i > 0 { assert path[1..][i - 1] == path[i]; }
  }

  lemma LineageTail(roles: map<string, Role>, path: seq<string>)
    requires Lineage(roles, path) && |path| > 1
    ensures Parent(roles, path[0]) == Some(path[1]) && Lineage(roles, path[1..])
  {
    var rest := path[1..];
    forall i | 0 <= i < |rest| - 1 ensures Inherits(roles, rest[i], rest[i + 1]) {
      assert Inherits(roles, path[i + 1], path[i + 2]);
    }
    assert Inherits(roles, path[0], path[1]);
  }

  lemma LineageCons(roles: map<string, Role>, role: string, path: seq<string>)
    requires path != [] && Parent(roles, role) == Some(path[0]) && Lineage(roles, path)
    ensures Lineage(roles, [role] + path)
  {
    var longer := [role] + path;
    forall i | 0 <= i < |longer| - 1 ensures Inherits(roles, longer[i], longer[i + 1]) {
      if i > 0 { assert Inherits(roles, path[i - 1], path[i]); }
    }
  }

  /** Fewer roles to avoid make no difference to a climb that ends. */
  lemma {:induction false} ClimbFrom(roles: map<string, Role>, role: string, seen: set<string>, less: set<string>)
    requires Climb(roles, role, seen).Some? && less <= seen
    ensures Climb(roles, role, less) == Climb(roles, role, seen)
    decreases |Climb(roles, role, seen).value|
  {
    if Parent(roles, role).Some? {
      ClimbFrom(roles, Parent(roles, role).value, seen + {role}, less + {role});
    }
  }

  lemma ParentEnds(roles: map<string, Role>, role: string)
    requires Ends(roles, role) && Parent(roles, role).Some?
    ensures var parent := Parent(roles, role).value;
            Ends(roles, parent) &&
            |Climb(roles, parent, {}).value| < |Climb(roles, role, {}).value|
  {
    ClimbFrom(roles, Parent(roles, role).value, {} + {role}, {});
  }

  /** A climb that ends has no role twice and none to be avoided, and every lineage
      from its role is the beginning of it. */
  lemma {:induction false} ClimbIsTheLine(roles: map<string, Role>, role: string, seen: set<string>, path: seq<string>)
    requires Climb(roles, role, seen).Some? && Lineage(roles, path) && path[0] == role
    ensures !Repeats(path) && forall i :: 0 <= i < |path| ==> path[i] !in seen
    decreases |path|
  {
    if |path| > 1 {
      LineageTail(roles, path);
      var rest := path[1..];
      ClimbIsTheLine(roles, rest[0], seen + {role}, rest);
      assert forall i :: 1 <= i < |path| ==> path[i] == rest[i - 1];
      if Repeats(path) { RepeatsInTail(path); }
    }
  }

  /** A climb that does not end shows a lineage that comes back. */
  lemma {:induction false} EndlessLine(roles: map<string, Role>, role: string, seen: set<string>) returns (path: seq<string>)
    requires Climb(roles, role, seen).None?
    ensures Lineage(roles, path) && path[0] == role
    ensures path[|path| - 1] in seen || Repeats(path)
    decreases |roles.Keys - seen|
  {
    path := [role];
    if role !in seen {
      var parent := Parent(roles, role).value;
      assert role in roles.Keys - seen;
      SmallerSet(roles.Keys - (seen + {role}), roles.Keys - seen);
      var rest := EndlessLine(roles, parent, seen + {role});
      LineageCons(roles, role, rest);
      path := [role] + rest;
      assert path[|path| - 1] == rest[|rest| - 1];
      if i, j :| 0 <= i < j < |rest| && rest[i] == rest[j] { assert path[i + 1] == path[j + 1]; }
      if rest[|rest| - 1] == role { assert path[0] == path[|path| - 1]; }
    }
  }

  /** Expansion of a role ends exactly when no lineage from it passes a role twice. */
  lemma EndsIff(roles: map<string, Role>, role: string)
    ensures Ends(roles, role) <==> forall path :: Lineage(roles, path) && path[0] == role ==> !Repeats(path)
  {
    if Ends(roles, role) {
      forall path | Lineage(roles, path) && path[0] == role ensures !Repeats(path) {
        ClimbIsTheLine(roles, role, {}, path);
      }
    } else {
      var path := EndlessLine(roles, role, {});
    }
  }

  /** Between two visits to a role a lineage is a cycle. */
  lemma CycleIn(roles: map<string, Role>, path: seq<string>, i: nat, j: nat)
    requires Lineage(roles, path) && i < j < |path| && path[i] == path[j]
    ensures !Acyclic(roles)
  {
    var part := path[i..j + 1];
    forall k | 0 <= k < |part| - 1 ensures Inherits(roles, part[k], part[k + 1]) {
      assert Inherits(roles, path[i + k], path[i + k + 1]);
    }
    assert Lineage(roles, part) && |part| > 1 && part[0] == part[|part| - 1];
  }

  lemma EndlessIsCyclic(roles: map<string, Role>, role: string)
    requires !Ends(roles, role)
    ensures !Acyclic(roles)
  {
    var path := EndlessLine(roles, role, {});
    var i, j :| 0 <= i < j < |path| && path[i] == path[j];
    CycleIn(roles, path, i, j);
  }

  /** A table has no inheritance cycle exactly when the expansion of every role ends. */
  lemma AcyclicIff(roles: map<string, Role>)
    ensures Acyclic(roles) <==> forall role :: Ends(roles, role)
  {
    if Acyclic(roles) {
      forall role ensures Ends(roles, role) {
        if !Ends(roles, role) { EndlessIsCyclic(roles, role); }
      }
    } else {
      var path :| Lineage(roles, path) && |path| > 1 && path[0] == path[|path| - 1];
      EndsIff(roles, path[0]);
      assert Repeats(path);
    }
  }

  /** The permissions of a role and of everything it inherits from, sorted. */
  function Expand(roles: map<string, Role>, role: string): (r: seq<string>)
    requires Ends(roles, role)
    ensures Ascending(r)
    decreases |Climb(roles, role, {}).value|
  {
    var own := Own(roles, role);
    match Parent(roles, role)
    case None => Sorted(own)
    case Some(parent) =>
      ParentEnds(roles, role);
      Sorted(own + set p | p in Expand(roles, parent))
  }

  ghost predicate OwnedAlong(roles: map<string, Role>, path: seq<string>, role: string, permission: string) {
    && Lineage(roles, path) && path[0] == role
    && path[|path| - 1] in roles && permission in roles[path[|path| - 1]].permissions
  }

  lemma {:induction false} OwnedIsExpanded(roles: map<string, Role>, path: seq<string>, role: string, permission: string)
    requires Ends(roles, role) && OwnedAlong(roles, path, role, permission)
    ensures permission in Expand(roles, role)
    decreases |path|
  {
    if |path| > 1 {
      LineageTail(roles, path);
      ParentEnds(roles, role);
      OwnedIsExpanded(roles, path[1..], path[1], permission);
    }
  }

  lemma {:induction false} ExpandedIsOwned(roles: map<string, Role>, role: string, permission: string)
    returns (path: seq<string>)
    requires Ends(roles, role) && permission in Expand(roles, role)
    ensures OwnedAlong(roles, path, role, permission)
    decreases |Climb(roles, role, {}).value|
  {
    path := [role];
    if permission !in Own(roles, role) {
      ParentEnds(roles, role);
      var rest := ExpandedIsOwned(roles, Parent(roles, role).value, permission);
      LineageCons(roles, role, rest);
      path := [role] + rest;
    }
  }

  /** Expansion returns exactly what the role or one of its ancestors owns. */
  lemma ExpansionIsExact(roles: map<string, Role>, role: string, permission: string)
    requires Ends(roles, role)
    ensures permission in Expand(roles, role) <==> exists path :: OwnedAlong(roles, path, role, permission)
    ensures Ascending(Expand(roles, role))
  {
    if permission in Expand(roles, role) {
      var path := ExpandedIsOwned(roles, role, permission);
    }
    if path :| OwnedAlong(roles, path, role, permission) {
      OwnedIsExpanded(roles, path, role, permission);
    }
  }

  /** A role holds every permission of every role it inherits from. */
  lemma {:induction false} ExpansionIsMonotone(roles: map<string, Role>, path: seq<string>)
    requires Lineage(roles, path) && Ends(roles, path[0])
    ensures Ends(roles, path[|path| - 1])
    ensures forall p :: p in Expand(roles, path[|path| - 1]) ==> p in Expand(roles, path[0])
    decreases |path|
  {
    if |path| > 1 {
      LineageTail(roles, path);
      ParentEnds(roles, path[0]);
      ExpansionIsMonotone(roles, path[1..]);
    }
  }

  // ---- tokens and approvals ------------------------------------------------

  /** An unknown token, a role whose expansion never ends and a role that is not in the
      table are all refused. */
  function Resolve(d: Directory, token: string): Result<User, Denial> {
    if token !in d.users then Failure(UnknownToken)
    else
      var p := d.users[token];
      if !Ends(d.roles, p.role) then Failure(EndlessRole)
      else if p.role !in d.roles then Failure(UnknownRole)
      else
        var budget := d.roles[p.role].budget;
        Success(User(p.login, p.role, Expand(d.roles, p.role), if budget.Some? then budget.value else DEFAULT_BUDGET))
  }

  /** The role or one of its ancestors owns the permission. */
  ghost predicate Owns(roles: map<string, Role>, role: string, permission: string) {
    exists path :: OwnedAlong(roles, path, role, permission)
  }

  /** A token that stands for somebody. */
  ghost predicate Known(d: Directory, token: string) {
    token in d.users && d.users[token].role in d.roles && Ends(d.roles, d.users[token].role)
  }

  /** Who a token stands for, and with which permissions and which budget. */
  lemma ResolveIff(d: Directory, token: string, user: User)
    ensures Resolve(d, token) == Failure(UnknownToken) <==> token !in d.users
    ensures Resolve(d, token) == Failure(EndlessRole) <==> token in d.users && !Ends(d.roles, d.users[token].role)
    ensures Resolve(d, token) == Failure(UnknownRole) <==>
              token in d.users && Ends(d.roles, d.users[token].role) && d.users[token].role !in d.roles
    ensures Resolve(d, token).Success? <==> Known(d, token)
    ensures Resolve(d, token) == Success(user) ==>
              && d.users[token] == Profile(user.login, user.role)
              && Some(user.budget) == (match d.roles[user.role].budget case None => Some(50_000) case budget => budget)
              && forall p :: p in user.permissions <==> Owns(d.roles, user.role, p)
  {
    if token in d.users && Ends(d.roles, d.users[token].role) {
      forall p ensures p in Expand(d.roles, d.users[token].role) <==> Owns(d.roles, d.users[token].role, p) {
        ExpansionIsExact(d.roles, d.users[token].role, p);
      }
    }
  }

  /** Every outcome of the approval check, by what the two tables say. */
  lemma ApprovalIff(d: Directory, permission: string, triggeredBy: string, token: string, login: string)
    ensures RequestApproval(d, permission, triggeredBy, token) == Success(login) <==>
              && Known(d, token) && Owns(d.roles, d.users[token].role, permission)
              && login == d.users[token].login && login != triggeredBy
    ensures RequestApproval(d, permission, triggeredBy, token) == Failure(MissingPermission) <==>
              Known(d, token) && !Owns(d.roles, d.users[token].role, permission)
    ensures RequestApproval(d, permission, triggeredBy, token) == Failure(FourEyesViolation) <==>
              && Known(d, token) && Owns(d.roles, d.users[token].role, permission)
              && d.users[token].login == triggeredBy
    ensures !Known(d, token) ==>
              RequestApproval(d, permission, triggeredBy, token) ==
                Failure(if token !in d.users then UnknownToken
                        else if Ends(d.roles, d.users[token].role) then UnknownRole else EndlessRole)
  {
    if Known(d, token) {
      ResolveIff(d, token, Resolve(d, token).value);
    } else {
      ResolveIff(d, token, User("", "", [], 0));
    }
  }

  /** Resolve the approver, check the permission, then the four-eyes rule. */
  function RequestApproval(d: Directory, permission: string, triggeredBy: string, token: string): Result<string, Denial> {
    match Resolve(d, token)
    case Failure(e) => Failure(e)
    case Success(user) =>
      if permission !in user.permissions then Failure(MissingPermission)
      else if user.login == triggeredBy then Failure(FourEyesViolation)
      else Success(user.login)
  }

  /** Someone other than `triggeredBy` whose role or one of its ancestors owns the permission. */
  ghost predicate Entitled(d: Directory, permission: string, triggeredBy: string, login: string) {
    login != triggeredBy &&
    exists token, path ::
      && token in d.users && d.users[token].login == login
      && OwnedAlong(d.roles, path, d.users[token].role, permission)
  }

  lemma ApprovalMeansEntitled(d: Directory, permission: string, triggeredBy: string, token: string)
    ensures RequestApproval(d, permission, triggeredBy, token).Success? ==>
              Entitled(d, permission, triggeredBy, RequestApproval(d, permission, triggeredBy, token).value)
  {
    if RequestApproval(d, permission, triggeredBy, token).Success? {
      var path := ExpandedIsOwned(d.roles, d.users[token].role, permission);
    }
  }

  /** The other direction: the token of someone whose role or ancestor owns the
      permission is refused only by the four-eyes rule, or because the role line
      never ends. */
  lemma EntitledIsApproved(d: Directory, permission: string, triggeredBy: string, token: string, path: seq<string>)
    requires token in d.users && OwnedAlong(d.roles, path, d.users[token].role, permission)
    ensures RequestApproval(d, permission, triggeredBy, token) ==
            if !Ends(d.roles, d.users[token].role) then Failure(EndlessRole)
            else if d.users[token].login == triggeredBy then Failure(FourEyesViolation)
            else Success(d.users[token].login)
  {
    assert |path| > 1 ==> Inherits(d.roles, path[0], path[1]);
    if Ends(d.roles, d.users[token].role) { OwnedIsExpanded(d.roles, path, d.users[token].role, permission); }
  }
}

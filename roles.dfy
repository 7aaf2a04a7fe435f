/** Guild roles as the bot sees them: a token is any role whose name contains
    the configured token name (`getName().contains(tokenName)`), and a member's
    roles are a list without repetitions. */
module Roles {
  import opened Basics

  datatype Role = Role(id: string, name: string)

  predicate HoldsToken(r: Role, tokenName: string) {
    Contains(r.name, tokenName)
  }

  predicate Distinct(roles: seq<Role>) {
    forall i, j :: 0 <= i < j < |roles| ==> roles[i] != roles[j]
  }

  /** How many of the roles are tokens. */
  function CountTokens(roles: seq<Role>, tokenName: string): (n: nat)
    ensures n <= |roles|
  {
    if roles == [] then 0
    else CountTokens(roles[..|roles| - 1], tokenName) + (if HoldsToken(roles[|roles| - 1], tokenName) then 1 else 0)
  }

  /** The count is positive exactly when some role is a token. */
  lemma {:induction false} CountTokensPositive(roles: seq<Role>, tokenName: string)
    ensures CountTokens(roles, tokenName) > 0 <==> exists i :: 0 <= i < |roles| && HoldsToken(roles[i], tokenName)
  {
    if roles != [] {
      var init := roles[..|roles| - 1];
      CountTokensPositive(init, tokenName);
      if exists i :: 0 <= i < |init| && HoldsToken(init[i], tokenName) {
        var i :| 0 <= i < |init| && HoldsToken(init[i], tokenName);
        assert roles[i] == init[i];
      }
      if exists i :: 0 <= i < |roles| && HoldsToken(roles[i], tokenName) {
        var i :| 0 <= i < |roles| && HoldsToken(roles[i], tokenName);
        if i < |init| {
          assert init[i] == roles[i];
        }
      }
    }
  }

  /** `roles.stream().filter(holds a token).findFirst()`, as an index. */
  function FirstTokenRole(roles: seq<Role>, tokenName: string): (r: Option<nat>)
    ensures r.None? <==> forall i :: 0 <= i < |roles| ==> !HoldsToken(roles[i], tokenName)
    ensures r.Some? ==> r.value < |roles| && HoldsToken(roles[r.value], tokenName)
                        && forall i :: 0 <= i < r.value ==> !HoldsToken(roles[i], tokenName)
  {
    if roles == [] then None
    else if HoldsToken(roles[0], tokenName) then Some(0)
    else
      var rest := FirstTokenRole(roles[1..], tokenName);
      assert forall i :: 1 <= i < |roles| ==> roles[i] == roles[1..][i - 1];
      if rest.None? then None else Some(rest.value + 1)
  }

  /** The first role with the given id (`Guild.getRoleById`). */
  function RoleById(roles: seq<Role>, id: string): (r: Option<Role>)
    ensures r.Some? ==> r.value in roles && r.value.id == id
    ensures r.None? ==> forall x :: x in roles ==> x.id != id
  {
    if roles == [] then None
    else if roles[0].id == id then Some(roles[0])
    else
      var rest := RoleById(roles[1..], id);
      assert forall x :: x in roles[1..] ==> x in roles;
      assert forall x :: x in roles && x != roles[0] ==> x in roles[1..];
      rest
  }

  /** The member's roles after the role is taken away. */
  function Remove(roles: seq<Role>, role: Role): (r: seq<Role>)
    ensures role !in r
    ensures forall x :: x in r <==> x in roles && x != role
  {
    if roles == [] then []
    else
      var init := roles[..|roles| - 1];
      var last := roles[|roles| - 1];
      assert roles == init + [last];
      Remove(init, role) + (if last == role then [] else [last])
  }

  /** The member's roles after the role is given (a role already held stays
      once). */
  function Add(roles: seq<Role>, role: Role): (r: seq<Role>)
    ensures forall x :: x in r <==> x in roles || x == role
  {
    if role in roles then roles else roles + [role]
  }

  /** Taking one held role away lowers the token count by one exactly when it
      is a token. */
  lemma {:induction false} CountAfterRemove(roles: seq<Role>, role: Role, tokenName: string)
    requires Distinct(roles) && role in roles
    ensures CountTokens(Remove(roles, role), tokenName)
         == CountTokens(roles, tokenName) - (if HoldsToken(role, tokenName) then 1 else 0)
  {
    var init := roles[..|roles| - 1];
    var last := roles[|roles| - 1];
    assert roles == init + [last];
    assert Distinct(init);
    if last == role {
      assert role !in init by {
        forall i | 0 <= i < |init| ensures init[i] != role {
          assert roles[i] != roles[|roles| - 1];
        }
      }
      RemoveAbsent(init, role);
      assert Remove(roles, role) == init;
      assert CountTokens(roles, tokenName) == CountTokens(init, tokenName) + (if HoldsToken(role, tokenName) then 1 else 0);
    } else {
      CountAfterRemove(init, role, tokenName);
      CountAppend(Remove(init, role), last, tokenName);
    }
  }

  lemma {:induction false} RemoveAbsent(roles: seq<Role>, role: Role)
    requires role !in roles
    ensures Remove(roles, role) == roles
  {
    if roles != [] {
      var init := roles[..|roles| - 1];
      assert roles == init + [roles[|roles| - 1]];
      RemoveAbsent(init, role);
    }
  }

  lemma CountAppend(roles: seq<Role>, role: Role, tokenName: string)
    ensures CountTokens(roles + [role], tokenName) == CountTokens(roles, tokenName) + (if HoldsToken(role, tokenName) then 1 else 0)
  {
    assert (roles + [role])[..|roles|] == roles;
  }

  /** Giving a role that is not a token does not change the token count. */
  lemma CountAfterAdd(roles: seq<Role>, role: Role, tokenName: string)
    requires !HoldsToken(role, tokenName)
    ensures CountTokens(Add(roles, role), tokenName) == CountTokens(roles, tokenName)
  {
    if role !in roles {
      CountAppend(roles, role, tokenName);
    }
  }

  /** Adding and removing keep a list without repetitions. */
  lemma AddRemoveDistinct(roles: seq<Role>, role: Role, other: Role)
    requires Distinct(roles)
    ensures Distinct(Add(roles, role))
    ensures Distinct(Remove(roles, other))
  {
    RemoveDistinct(roles, other);
  }

  lemma {:induction false} RemoveDistinct(roles: seq<Role>, other: Role)
    requires Distinct(roles)
    ensures Distinct(Remove(roles, other))
  {
    if roles != [] {
      var init := roles[..|roles| - 1];
      var last := roles[|roles| - 1];
      assert roles == init + [last];
      assert Distinct(init);
      RemoveDistinct(init, other);
      assert last !in init by {
        forall i | 0 <= i < |init| ensures init[i] != last {
          assert roles[i] != roles[|roles| - 1];
        }
      }
    }
  }
}

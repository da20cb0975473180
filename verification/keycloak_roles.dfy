/** The Art-Net sender's mapping from a Keycloak access token to Spring
    authorities: the realm roles, then the roles granted for one client.
    Only the claims the conversion reads are modelled: a claim is absent
    or a map, and a `roles` entry is a list of role names.  A role name
    that is empty or white space only makes `SimpleGrantedAuthority`
    throw, and the whole conversion with it. */
module KeycloakRoles {
  import opened Wrappers
  import opened Text

  /** A `realm_access` claim, or one client's entry in `resource_access`. */
  type Access = map<string, seq<string>>

  datatype Jwt = Jwt(realmAccess: Option<Access>, resourceAccess: Option<map<string, Access>>)

  datatype GrantedAuthority = SimpleGrantedAuthority(role: string)

  /** The `IllegalArgumentException` of Spring's `Assert.hasText` in the
      `SimpleGrantedAuthority` constructor. */
  datatype ConversionFault = IllegalArgument(message: string)

  const AuthorityRequired := "A granted authority textual representation is required"

  /** Every listed name is accepted by `SimpleGrantedAuthority`. */
  predicate AllHaveText(roles: seq<string>) {
    forall role :: role in roles ==> HasText(role)
  }

  /** One authority per role name, in list order. */
  function Authorities(roles: seq<string>): (r: seq<GrantedAuthority>)
    ensures |r| == |roles|
    ensures forall i :: 0 <= i < |r| ==> r[i] == SimpleGrantedAuthority(roles[i])
  {
    if roles == [] then [] else [SimpleGrantedAuthority(roles[0])] + Authorities(roles[1..])
  }

  /** The roles listed under `realm_access.roles`; none when either is missing. */
  function RealmRoles(jwt: Jwt): seq<string> {
    if jwt.realmAccess.Some? && "roles" in jwt.realmAccess.value then jwt.realmAccess.value["roles"] else []
  }

  /** The roles listed under `resource_access.<resourceName>.roles`; none
      when any of the three is missing. */
  function ClientRoles(jwt: Jwt, resourceName: string): seq<string> {
    if jwt.resourceAccess.Some? && resourceName in jwt.resourceAccess.value
       && "roles" in jwt.resourceAccess.value[resourceName]
    then jwt.resourceAccess.value[resourceName]["roles"]
    else []
  }

  class KeycloakRoleConverter {
    const resourceName: string

    constructor (resourceName: string)
      ensures this.resourceName == resourceName
    {
      this.resourceName := resourceName;
    }

    /** The realm authorities followed by this client's authorities, each
        list in token order and nothing removed as a duplicate; a blank
        name in either list throws instead. */
    method Convert(jwt: Jwt) returns (r: Result<seq<GrantedAuthority>, ConversionFault>)
      ensures r.Success? <==> AllHaveText(RealmRoles(jwt) + ClientRoles(jwt, resourceName))
      ensures r.Success? ==> r.value == Authorities(RealmRoles(jwt) + ClientRoles(jwt, resourceName))
      ensures r.Failure? ==> r.error == IllegalArgument(AuthorityRequired)
    {
      var realmAuthorities: seq<GrantedAuthority> := [];
      var resourceAuthorities: seq<GrantedAuthority> := [];
      var authorities: seq<GrantedAuthority> := [];

      ghost var realm, client := RealmRoles(jwt), ClientRoles(jwt, resourceName);
      AllHaveTextAppend(realm, client);

      if jwt.realmAccess.Some? && "roles" in jwt.realmAccess.value {
        var realmRoles := jwt.realmAccess.value["roles"];
        var added := AddAll(realmAuthorities, realmRoles);
        if added.Failure? {
          return Failure(added.error);
        }
        realmAuthorities := added.value;
      }
      assert AllHaveText(realm) && realmAuthorities == Authorities(realm);

      if jwt.resourceAccess.Some? && resourceName in jwt.resourceAccess.value {
        var clientRoles := jwt.resourceAccess.value[resourceName];
        if "roles" in clientRoles {
          var roles := clientRoles["roles"];
          var added := AddAll(resourceAuthorities, roles);
          if added.Failure? {
            return Failure(added.error);
          }
          resourceAuthorities := added.value;
        }
      }
      assert AllHaveText(client) && resourceAuthorities == Authorities(client);
      authorities := authorities + realmAuthorities;
      authorities := authorities + resourceAuthorities;
      AuthoritiesAppend(realm, client);
      return Success(authorities);
    }
  }

  /** `roles.forEach(roleName -> list.add(new SimpleGrantedAuthority(roleName)))`:
      the first blank name throws, otherwise one authority per name is
      appended in order. */
  method AddAll(list: seq<GrantedAuthority>, roles: seq<string>)
    returns (r: Result<seq<GrantedAuthority>, ConversionFault>)
    ensures AllHaveText(roles) ==> r == Success(list + Authorities(roles))
    ensures !AllHaveText(roles) ==> r == Failure(IllegalArgument(AuthorityRequired))
  {
    var added := list;
    var i := 0;
    while i < |roles|
      invariant 0 <= i <= |roles|
      invariant added == list + Authorities(roles[..i])
      invariant AllHaveText(roles[..i])
    {
      if !HasText(roles[i]) {
        assert roles[i] in roles;
        return Failure(IllegalArgument(AuthorityRequired));
      }
      assert roles[..i + 1] == roles[..i] + [roles[i]];
      AuthoritiesAppend(roles[..i], [roles[i]]);
      AllHaveTextAppend(roles[..i], [roles[i]]);
      added := added + [SimpleGrantedAuthority(roles[i])];
      i := i + 1;
    }
    assert roles[..i] == roles;
    return Success(added);
  }

  /** Two lists of names are accepted together exactly when each is. */
  lemma AllHaveTextAppend(a: seq<string>, b: seq<string>)
    ensures AllHaveText(a + b) <==> AllHaveText(a) && AllHaveText(b)
  {
    assert forall role :: role in a + b <==> role in a || role in b;
  }

  /** Converting two lists of names one after the other is converting their concatenation. */
  lemma {:induction false} AuthoritiesAppend(a: seq<string>, b: seq<string>)
    ensures Authorities(a + b) == Authorities(a) + Authorities(b)
  {
    if a == [] {
      assert a + b == b;
    } else {
      assert (a + b)[1..] == a[1..] + b;
      AuthoritiesAppend(a[1..], b);
    }
  }

  /** A role name yields an authority exactly when the realm or the
      configured client lists it, and it yields one authority per listing:
      a role in both lists is granted twice. */
  lemma ConvertedRoles(jwt: Jwt, resourceName: string, role: string)
    ensures var all := Authorities(RealmRoles(jwt) + ClientRoles(jwt, resourceName));
      (SimpleGrantedAuthority(role) in all <==> role in RealmRoles(jwt) || role in ClientRoles(jwt, resourceName)) &&
      multiset(all)[SimpleGrantedAuthority(role)] ==
        multiset(RealmRoles(jwt))[role] + multiset(ClientRoles(jwt, resourceName))[role]
  {
    var realm, client := RealmRoles(jwt), ClientRoles(jwt, resourceName);
    AuthoritiesAppend(realm, client);
    AuthorityCount(realm, role);
    AuthorityCount(client, role);
    AuthorityCount(realm + client, role);
  }

  /** Each listing of a name is one authority for it. */
  lemma {:induction false} AuthorityCount(roles: seq<string>, role: string)
    ensures multiset(Authorities(roles))[SimpleGrantedAuthority(role)] == multiset(roles)[role]
    ensures SimpleGrantedAuthority(role) in Authorities(roles) <==> role in roles
  {
    if roles != [] {
      var head, tail := roles[0], roles[1..];
      AuthorityCount(tail, role);
      assert roles == [head] + tail;
      assert multiset(roles) == multiset{head} + multiset(tail);
      assert multiset(Authorities(roles)) == multiset{SimpleGrantedAuthority(head)} + multiset(Authorities(tail));
    }
    assert role in roles <==> multiset(roles)[role] > 0;
    assert SimpleGrantedAuthority(role) in Authorities(roles) <==>
      multiset(Authorities(roles))[SimpleGrantedAuthority(role)] > 0;
  }

  /** Entries of `resource_access` for other clients never matter. */
  lemma OtherClientsIgnored(jwt: Jwt, resourceName: string, other: string, access: Access)
    requires other != resourceName && jwt.resourceAccess.Some?
    ensures ClientRoles(jwt.(resourceAccess := Some(jwt.resourceAccess.value[other := access])), resourceName)
            == ClientRoles(jwt, resourceName)
  {
  }

  /** A token without `realm_access` grants only client roles, and one
      without `resource_access` only realm roles. */
  lemma MissingClaims(jwt: Jwt, resourceName: string)
    ensures jwt.realmAccess.None? ==>
      Authorities(RealmRoles(jwt) + ClientRoles(jwt, resourceName)) == Authorities(ClientRoles(jwt, resourceName))
    ensures jwt.resourceAccess.None? ==>
      Authorities(RealmRoles(jwt) + ClientRoles(jwt, resourceName)) == Authorities(RealmRoles(jwt))
  {
    if jwt.realmAccess.None? {
      assert RealmRoles(jwt) + ClientRoles(jwt, resourceName) == ClientRoles(jwt, resourceName);
    }
    if jwt.resourceAccess.None? {
      assert RealmRoles(jwt) + ClientRoles(jwt, resourceName) == RealmRoles(jwt);
    }
  }
}

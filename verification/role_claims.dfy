/** The application roles of the C# server and the claims-identity
    helpers that turn them into role claims: the names of all roles, the
    two `AddAppRoles` extensions, and the realm-administrator test. */
module RoleClaims {
  import Wrappers
  import opened Text
  import opened Linq

  /** The `Role` enum, in declaration order; its numeric values play no
      part in the claims. */
  datatype Role =
    | None
    | DeviceCreate | DeviceRead | DeviceUpdate | DeviceDelete
    | VendorCreate | VendorRead | VendorUpdate | VendorDelete
    | CategoryCreate | CategoryRead | CategoryUpdate | CategoryDelete
    | StockCreate | StockRead | StockUpdate | StockDelete
    | BacklogCreate | BacklogRead | BacklogUpdate | BacklogDelete
    | RentalCreate | RentalRead | RentalUpdate | RentalDelete
    | RentalStatusCreate | RentalStatusRead | RentalStatusUpdate | RentalStatusDelete
    | InvoiceCreate | InvoiceRead | InvoiceUpdate | InvoiceDelete
    | InvoiceStatusCreate | InvoiceStatusRead | InvoiceStatusUpdate | InvoiceStatusDelete
    | RoleRead | RoleUpdate | RoleDelete
    | GroupCreate | GroupRead | GroupUpdate | GroupDelete
    | UserCreate | UserRead | UserUpdate | UserDelete

  /** `ToString()` of a role: its declared name. */
  function Name(r: Role): string {
    match r
    case None => "None"
    case DeviceCreate => "DeviceCreate" case DeviceRead => "DeviceRead"
    case DeviceUpdate => "DeviceUpdate" case DeviceDelete => "DeviceDelete"
    case VendorCreate => "VendorCreate" case VendorRead => "VendorRead"
    case VendorUpdate => "VendorUpdate" case VendorDelete => "VendorDelete"
    case CategoryCreate => "CategoryCreate" case CategoryRead => "CategoryRead"
    case CategoryUpdate => "CategoryUpdate" case CategoryDelete => "CategoryDelete"
    case StockCreate => "StockCreate" case StockRead => "StockRead"
    case StockUpdate => "StockUpdate" case StockDelete => "StockDelete"
    case BacklogCreate => "BacklogCreate" case BacklogRead => "BacklogRead"
    case BacklogUpdate => "BacklogUpdate" case BacklogDelete => "BacklogDelete"
    case RentalCreate => "RentalCreate" case RentalRead => "RentalRead"
    case RentalUpdate => "RentalUpdate" case RentalDelete => "RentalDelete"
    case RentalStatusCreate => "RentalStatusCreate" case RentalStatusRead => "RentalStatusRead"
    case RentalStatusUpdate => "RentalStatusUpdate" case RentalStatusDelete => "RentalStatusDelete"
    case InvoiceCreate => "InvoiceCreate" case InvoiceRead => "InvoiceRead"
    case InvoiceUpdate => "InvoiceUpdate" case InvoiceDelete => "InvoiceDelete"
    case InvoiceStatusCreate => "InvoiceStatusCreate" case InvoiceStatusRead => "InvoiceStatusRead"
    case InvoiceStatusUpdate => "InvoiceStatusUpdate" case InvoiceStatusDelete => "InvoiceStatusDelete"
    case RoleRead => "RoleRead" case RoleUpdate => "RoleUpdate" case RoleDelete => "RoleDelete"
    case GroupCreate => "GroupCreate" case GroupRead => "GroupRead"
    case GroupUpdate => "GroupUpdate" case GroupDelete => "GroupDelete"
    case UserCreate => "UserCreate" case UserRead => "UserRead"
    case UserUpdate => "UserUpdate" case UserDelete => "UserDelete"
  }

  /** The place of each role in the declaration. */
  function Position(r: Role): (p: nat)
    ensures p < 48
  {
    match r
    case None => 0
    case DeviceCreate => 1
    case DeviceRead => 2
    case DeviceUpdate => 3
    case DeviceDelete => 4
    case VendorCreate => 5
    case VendorRead => 6
    case VendorUpdate => 7
    case VendorDelete => 8
    case CategoryCreate => 9
    case CategoryRead => 10
    case CategoryUpdate => 11
    case CategoryDelete => 12
    case StockCreate => 13
    case StockRead => 14
    case StockUpdate => 15
    case StockDelete => 16
    case BacklogCreate => 17
    case BacklogRead => 18
    case BacklogUpdate => 19
    case BacklogDelete => 20
    case RentalCreate => 21
    case RentalRead => 22
    case RentalUpdate => 23
    case RentalDelete => 24
    case RentalStatusCreate => 25
    case RentalStatusRead => 26
    case RentalStatusUpdate => 27
    case RentalStatusDelete => 28
    case InvoiceCreate => 29
    case InvoiceRead => 30
    case InvoiceUpdate => 31
    case InvoiceDelete => 32
    case InvoiceStatusCreate => 33
    case InvoiceStatusRead => 34
    case InvoiceStatusUpdate => 35
    case InvoiceStatusDelete => 36
    case RoleRead => 37
    case RoleUpdate => 38
    case RoleDelete => 39
    case GroupCreate => 40
    case GroupRead => 41
    case GroupUpdate => 42
    case GroupDelete => 43
    case UserCreate => 44
    case UserRead => 45
    case UserUpdate => 46
    case UserDelete => 47
  }

  /** The role declared at a place. */
  function RoleAt(i: nat): (r: Role)
    requires i < 48
  {
    match i
    case 0 => None
    case 1 => DeviceCreate
    case 2 => DeviceRead
    case 3 => DeviceUpdate
    case 4 => DeviceDelete
    case 5 => VendorCreate
    case 6 => VendorRead
    case 7 => VendorUpdate
    case 8 => VendorDelete
    case 9 => CategoryCreate
    case 10 => CategoryRead
    case 11 => CategoryUpdate
    case 12 => CategoryDelete
    case 13 => StockCreate
    case 14 => StockRead
    case 15 => StockUpdate
    case 16 => StockDelete
    case 17 => BacklogCreate
    case 18 => BacklogRead
    case 19 => BacklogUpdate
    case 20 => BacklogDelete
    case 21 => RentalCreate
    case 22 => RentalRead
    case 23 => RentalUpdate
    case 24 => RentalDelete
    case 25 => RentalStatusCreate
    case 26 => RentalStatusRead
    case 27 => RentalStatusUpdate
    case 28 => RentalStatusDelete
    case 29 => InvoiceCreate
    case 30 => InvoiceRead
    case 31 => InvoiceUpdate
    case 32 => InvoiceDelete
    case 33 => InvoiceStatusCreate
    case 34 => InvoiceStatusRead
    case 35 => InvoiceStatusUpdate
    case 36 => InvoiceStatusDelete
    case 37 => RoleRead
    case 38 => RoleUpdate
    case 39 => RoleDelete
    case 40 => GroupCreate
    case 41 => GroupRead
    case 42 => GroupUpdate
    case 43 => GroupDelete
    case 44 => UserCreate
    case 45 => UserRead
    case 46 => UserUpdate
    case _ => UserDelete
  }

  /** `Enum.GetValues<Role>()`: the roles by ascending value.  The enum
      declares them with ascending values, so this is declaration order. */
  function Declared(): (d: seq<Role>)
    ensures |d| == 48
  {
    seq(48, i requires 0 <= i < 48 => RoleAt(i))
  }

  lemma RoleAtPosition(r: Role)
    ensures RoleAt(Position(r)) == r
  {
    if Position(r) < 16 {
      RoleAtPositionLow(r);
    } else if Position(r) < 32 {
      RoleAtPositionMiddle(r);
    } else {
      RoleAtPositionHigh(r);
    }
  }

  /** The roles from `None` to `StockDelete`. */
  lemma RoleAtPositionLow(r: Role)
    requires Position(r) < 16
    ensures RoleAt(Position(r)) == r
  {
    match r {
      case None => assert RoleAt(0) == None;
      case DeviceCreate => assert RoleAt(1) == DeviceCreate;
      case DeviceRead => assert RoleAt(2) == DeviceRead;
      case DeviceUpdate => assert RoleAt(3) == DeviceUpdate;
      case DeviceDelete => assert RoleAt(4) == DeviceDelete;
      case VendorCreate => assert RoleAt(5) == VendorCreate;
      case VendorRead => assert RoleAt(6) == VendorRead;
      case VendorUpdate => assert RoleAt(7) == VendorUpdate;
      case VendorDelete => assert RoleAt(8) == VendorDelete;
      case CategoryCreate => assert RoleAt(9) == CategoryCreate;
      case CategoryRead => assert RoleAt(10) == CategoryRead;
      case CategoryUpdate => assert RoleAt(11) == CategoryUpdate;
      case CategoryDelete => assert RoleAt(12) == CategoryDelete;
      case StockCreate => assert RoleAt(13) == StockCreate;
      case StockRead => assert RoleAt(14) == StockRead;
      case StockUpdate => assert RoleAt(15) == StockUpdate;
      case _ => assert false;
    }
  }

  /** The roles from `BacklogCreate` to `InvoiceDelete`. */
  lemma RoleAtPositionMiddle(r: Role)
    requires 16 <= Position(r) < 32
    ensures RoleAt(Position(r)) == r
  {
    match r {
      case StockDelete => assert RoleAt(16) == StockDelete;
      case BacklogCreate => assert RoleAt(17) == BacklogCreate;
      case BacklogRead => assert RoleAt(18) == BacklogRead;
      case BacklogUpdate => assert RoleAt(19) == BacklogUpdate;
      case BacklogDelete => assert RoleAt(20) == BacklogDelete;
      case RentalCreate => assert RoleAt(21) == RentalCreate;
      case RentalRead => assert RoleAt(22) == RentalRead;
      case RentalUpdate => assert RoleAt(23) == RentalUpdate;
      case RentalDelete => assert RoleAt(24) == RentalDelete;
      case RentalStatusCreate => assert RoleAt(25) == RentalStatusCreate;
      case RentalStatusRead => assert RoleAt(26) == RentalStatusRead;
      case RentalStatusUpdate => assert RoleAt(27) == RentalStatusUpdate;
      case RentalStatusDelete => assert RoleAt(28) == RentalStatusDelete;
      case InvoiceCreate => assert RoleAt(29) == InvoiceCreate;
      case InvoiceRead => assert RoleAt(30) == InvoiceRead;
      case InvoiceUpdate => assert RoleAt(31) == InvoiceUpdate;
      case _ => assert false;
    }
  }

  /** The roles from `InvoiceStatusCreate` to `UserDelete`. */
  lemma RoleAtPositionHigh(r: Role)
    requires 32 <= Position(r)
    ensures RoleAt(Position(r)) == r
  {
    match r {
      case InvoiceDelete => assert RoleAt(32) == InvoiceDelete;
      case InvoiceStatusCreate => assert RoleAt(33) == InvoiceStatusCreate;
      case InvoiceStatusRead => assert RoleAt(34) == InvoiceStatusRead;
      case InvoiceStatusUpdate => assert RoleAt(35) == InvoiceStatusUpdate;
      case InvoiceStatusDelete => assert RoleAt(36) == InvoiceStatusDelete;
      case RoleRead => assert RoleAt(37) == RoleRead;
      case RoleUpdate => assert RoleAt(38) == RoleUpdate;
      case RoleDelete => assert RoleAt(39) == RoleDelete;
      case GroupCreate => assert RoleAt(40) == GroupCreate;
      case GroupRead => assert RoleAt(41) == GroupRead;
      case GroupUpdate => assert RoleAt(42) == GroupUpdate;
      case GroupDelete => assert RoleAt(43) == GroupDelete;
      case UserCreate => assert RoleAt(44) == UserCreate;
      case UserRead => assert RoleAt(45) == UserRead;
      case UserUpdate => assert RoleAt(46) == UserUpdate;
      case UserDelete => assert RoleAt(47) == UserDelete;
      case _ => assert false;
    }
  }

  lemma PositionOfRoleAt(i: nat)
    requires i < 48
    ensures Position(RoleAt(i)) == i
  {
  }

  /** The declaration lists every role, once each. */
  lemma DeclaredIsEnumOrder()
    ensures forall r: Role :: r in Declared()
    ensures NoDuplicates(Declared())
  {
    forall r: Role ensures r in Declared() {
      RoleAtPosition(r);
      assert Declared()[Position(r)] == r;
    }
    forall i, j | 0 <= i < j < 48 ensures Declared()[i] != Declared()[j] {
      PositionOfRoleAt(i);
      PositionOfRoleAt(j);
    }
  }

  /** `Where(r => r != Role.None)`: the roles other than `None`, in order. */
  function AppRoles(roles: seq<Role>): (r: seq<Role>)
    ensures |r| <= |roles|
    ensures forall i :: 0 <= i < |r| ==> r[i] != None && r[i] in roles
    ensures forall i :: 0 <= i < |roles| && roles[i] != None ==> roles[i] in r
  {
    if roles == [] then []
    else
      var rest := AppRoles(roles[1..]);
      if roles[0] == None then rest else [roles[0]] + rest
  }

  /** A list without `None` passes the filter whole. */
  lemma {:induction false} AppRolesKeepsAll(roles: seq<Role>)
    requires None !in roles
    ensures AppRoles(roles) == roles
  {
    if roles != [] {
      AppRolesKeepsAll(roles[1..]);
    }
  }

  /** `Select(r => r.ToString())`. */
  function Names(roles: seq<Role>): (r: seq<string>)
    ensures |r| == |roles| && forall i :: 0 <= i < |r| ==> r[i] == Name(roles[i])
  {
    seq(|roles|, i requires 0 <= i < |roles| => Name(roles[i]))
  }

  /** `AllAppRoles`: the names of all roles but `None`. */
  function AllAppRoles(): (r: seq<string>)
  {
    Names(AppRoles(Declared()))
  }

  /** `AllAppRoles` names every role but `None`, once each, in declaration
      order. */
  lemma AllAppRolesLists()
    ensures AllAppRoles() == Names(Declared()[1..])
    ensures |AllAppRoles()| == 47
    ensures forall r: Role :: r != None ==> Name(r) in AllAppRoles()
    ensures "None" !in AllAppRoles()
  {
    var d := Declared();
    assert d[0] == None;
    PositionOfRoleAt(0);
    forall i | 1 <= i < 48 ensures d[i] != None {
      PositionOfRoleAt(i);
    }
    assert d == [None] + d[1..];
    AppRolesKeepsAll(d[1..]);
    assert AllAppRoles() == Names(d[1..]);
    forall r: Role | r != None ensures Name(r) in AllAppRoles() {
      RoleAtPosition(r);
      assert Name(r) == AllAppRoles()[Position(r) - 1];
    }
    forall k | 0 <= k < 47 ensures AllAppRoles()[k] != "None" {
      NameIsNotNone(d[k + 1]);
    }
  }

  lemma NameIsNotNone(r: Role)
    ensures r != None ==> Name(r) != "None"
  {
  }

  /** No role is called "REALM_ADMIN": that role comes from the identity
      provider, never from the enum. */
  lemma NameIsNotRealmAdmin(r: Role)
    ensures Name(r) != RealmAdmin
  {
  }

  const RealmAdmin: string := "REALM_ADMIN"

  /** `ClaimTypes.Role`. */
  const RoleClaimType: string := "http://schemas.microsoft.com/ws/2008/06/identity/claims/role"

  datatype Claim = Claim(claimType: string, value: string)

  /** One role claim per value, in order. */
  function RoleClaimsOf(values: seq<string>): (r: seq<Claim>)
    ensures |r| == |values| && forall i :: 0 <= i < |r| ==> r[i] == Claim(RoleClaimType, values[i])
  {
    seq(|values|, i requires 0 <= i < |values| => Claim(RoleClaimType, values[i]))
  }

  /** `Where(n => !string.IsNullOrWhiteSpace(n))`: the names that hold
      more than white space, in order. */
  function NonBlank(names: seq<Wrappers.Option<string>>): (r: seq<string>)
    ensures |r| <= |names|
    ensures forall i :: 0 <= i < |r| ==> !IsWhiteSpaceOnly(r[i]) && Wrappers.Some(r[i]) in names
    ensures forall i :: 0 <= i < |names| && !IsNullOrWhiteSpace(names[i]) ==> names[i].value in r
  {
    if names == [] then []
    else
      var rest := NonBlank(names[1..]);
      if IsNullOrWhiteSpace(names[0]) then rest else [names[0].value] + rest
  }

  /** `ClaimsPrincipal.IsInRole`: some claim is a role claim with exactly
      this value. */
  predicate IsInRole(claims: seq<Claim>, role: string) {
    exists i :: 0 <= i < |claims| && claims[i] == Claim(RoleClaimType, role)
  }

  /** `HasRealmAdmin`. */
  predicate HasRealmAdmin(claims: seq<Claim>) {
    IsInRole(claims, RealmAdmin)
  }

  /** Adding role claims for some values puts exactly those values in role. */
  lemma IsInRoleAfterAdding(claims: seq<Claim>, values: seq<string>, role: string)
    ensures IsInRole(claims + RoleClaimsOf(values), role) <==> IsInRole(claims, role) || role in values
  {
    var all := claims + RoleClaimsOf(values);
    if IsInRole(all, role) {
      var i :| 0 <= i < |all| && all[i] == Claim(RoleClaimType, role);
      if i >= |claims| {
        assert values[i - |claims|] == role;
      }
    }
    if IsInRole(claims, role) {
      var i :| 0 <= i < |claims| && claims[i] == Claim(RoleClaimType, role);
      assert all[i] == claims[i];
    }
    if role in values {
      var k :| 0 <= k < |values| && values[k] == role;
      assert all[|claims| + k] == Claim(RoleClaimType, role);
    }
  }

  /** The claim values `AddAppRoles(roles)` adds: the names of the distinct
      roles other than `None`, in order of first occurrence. */
  function AddedForRoles(roles: seq<Role>): seq<string> {
    Names(Distinct(AppRoles(roles)))
  }

  /** The claim values `AddAppRoles(roleNames)` adds: the distinct names
      that are not null or blank, in order of first occurrence. */
  function AddedForNames(roleNames: seq<Wrappers.Option<string>>): seq<string> {
    Distinct(NonBlank(roleNames))
  }

  /** A value is added by `AddAppRoles(roles)` exactly when it names a
      listed role other than `None`. */
  lemma AddedForRolesMembers(roles: seq<Role>, role: string)
    ensures role in AddedForRoles(roles) <==>
      exists i :: 0 <= i < |roles| && roles[i] != None && Name(roles[i]) == role
  {
    if role in AddedForRoles(roles) {
      AddedNamesListedRole(roles, role);
    }
    if exists i :: 0 <= i < |roles| && roles[i] != None && Name(roles[i]) == role {
      var i :| 0 <= i < |roles| && roles[i] != None && Name(roles[i]) == role;
      ListedRoleIsAdded(roles, i);
    }
  }

  lemma AddedNamesListedRole(roles: seq<Role>, role: string)
    requires role in AddedForRoles(roles)
    ensures exists i :: 0 <= i < |roles| && roles[i] != None && Name(roles[i]) == role
  {
    var d := Distinct(AppRoles(roles));
    var k :| 0 <= k < |d| && Name(d[k]) == role;
    assert d[k] in AppRoles(roles);
    var i :| 0 <= i < |roles| && roles[i] == d[k];
  }

  lemma ListedRoleIsAdded(roles: seq<Role>, i: int)
    requires 0 <= i < |roles| && roles[i] != None
    ensures Name(roles[i]) in AddedForRoles(roles)
  {
    var app := AppRoles(roles);
    var d := Distinct(app);
    assert roles[i] in app;
    var j :| 0 <= j < |app| && app[j] == roles[i];
    var k :| 0 <= k < |d| && d[k] == roles[i];
    assert AddedForRoles(roles)[k] == Name(roles[i]);
  }

  /** After `AddAppRoles(roles)` the identity is in a role exactly when it
      was already, or the role is the name of a listed role other than
      `None`; one claim is added per distinct such role. */
  lemma RolesAdded(claims: seq<Claim>, roles: seq<Role>, role: string)
    ensures IsInRole(claims + RoleClaimsOf(AddedForRoles(roles)), role) <==>
      IsInRole(claims, role) || exists i :: 0 <= i < |roles| && roles[i] != None && Name(roles[i]) == role
    ensures |AddedForRoles(roles)| == |Distinct(AppRoles(roles))|
  {
    IsInRoleAfterAdding(claims, AddedForRoles(roles), role);
    AddedForRolesMembers(roles, role);
  }

  /** Role claims built from the enum never make a principal a realm
      administrator. */
  lemma RolesNeverGrantRealmAdmin(claims: seq<Claim>, roles: seq<Role>)
    ensures HasRealmAdmin(claims + RoleClaimsOf(AddedForRoles(roles))) <==> HasRealmAdmin(claims)
  {
    RolesAdded(claims, roles, RealmAdmin);
    forall i | 0 <= i < |roles| ensures Name(roles[i]) != RealmAdmin {
      NameIsNotRealmAdmin(roles[i]);
    }
  }

  /** After `AddAppRoles(roleNames)` the identity is in a role exactly when
      it was already, or the role is one of the names and not blank; each
      name is added once. */
  lemma NamesAdded(claims: seq<Claim>, roleNames: seq<Wrappers.Option<string>>, role: string)
    ensures IsInRole(claims + RoleClaimsOf(AddedForNames(roleNames)), role) <==>
      IsInRole(claims, role) || (Wrappers.Some(role) in roleNames && !IsWhiteSpaceOnly(role))
    ensures NoDuplicates(AddedForNames(roleNames))
  {
    var added := AddedForNames(roleNames);
    IsInRoleAfterAdding(claims, added, role);
    if role in added {
      var k :| 0 <= k < |added| && added[k] == role;
      assert added[k] in NonBlank(roleNames);
    }
    if Wrappers.Some(role) in roleNames && !IsWhiteSpaceOnly(role) {
      var i :| 0 <= i < |roleNames| && roleNames[i] == Wrappers.Some(role);
      assert role in NonBlank(roleNames);
      var j :| 0 <= j < |NonBlank(roleNames)| && NonBlank(roleNames)[j] == role;
      assert role in added;
    }
  }

  /** A claims identity and its list of claims, in the order they were added. */
  class ClaimsIdentity {
    var claims: seq<Claim>

    constructor ()
      ensures claims == []
    {
      claims := [];
    }

    method AddClaim(claim: Claim)
      modifies this
      ensures claims == old(claims) + [claim]
    {
      claims := claims + [claim];
    }

    /** `AddAppRoles(IEnumerable<Role>)`: one role claim per distinct
        role other than `None`, after the claims already present. */
    method AddAppRoles(roles: seq<Role>)
      modifies this
      ensures claims == old(claims) + RoleClaimsOf(AddedForRoles(roles))
    {
      var distinct := Distinct(AppRoles(roles));
      var i := 0;
      while i < |distinct|
        invariant 0 <= i <= |distinct|
        invariant claims == old(claims) + RoleClaimsOf(Names(distinct[..i]))
      {
        AddClaim(Claim(RoleClaimType, Name(distinct[i])));
        assert Names(distinct[..i + 1]) == Names(distinct[..i]) + [Name(distinct[i])];
        i := i + 1;
      }
      assert distinct[..i] == distinct;
    }

    /** `AddAppRoles(IEnumerable<string>)`: one role claim per distinct
        name that is not null or blank, after the claims already present. */
    method AddAppRoleNames(roleNames: seq<Wrappers.Option<string>>)
      modifies this
      ensures claims == old(claims) + RoleClaimsOf(AddedForNames(roleNames))
    {
      var distinct := Distinct(NonBlank(roleNames));
      var i := 0;
      while i < |distinct|
        invariant 0 <= i <= |distinct|
        invariant claims == old(claims) + RoleClaimsOf(distinct[..i])
      {
        AddClaim(Claim(RoleClaimType, distinct[i]));
        assert distinct[..i + 1] == distinct[..i] + [distinct[i]];
        i := i + 1;
      }
      assert distinct[..i] == distinct;
    }
  }
}

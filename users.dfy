/** The user record of the auth service: its identity rule (equality and
    hash code depend on `id` alone, as Lombok generates them) and the
    authority it grants. The four other columns are non-null, so they are
    plain values here. */
module Users {
  import opened Wrappers
  import opened JavaLang
  import opened ClaimsModel

  /** `id` is `null` until the store assigns it. */
  datatype User = User(id: Option<int>, username: string, email: string, password: string, role: Role)

  /** `getAuthorities`: a one-element list holding "ROLE_" + the role name;
      stripping the prefix gives the role name back. */
  function GetAuthorities(user: User): (authorities: seq<string>)
    ensures |authorities| == 1 && StartsWith(authorities[0], RolePrefix)
    ensures authorities[0][|RolePrefix|..] == RoleName(user.role)
  {
    ["ROLE_" + RoleName(user.role)]
  }

  /** The user record grants exactly one authority, by the same rule the
      gate applies to a token's role claim, and distinct roles grant
      distinct authorities. */
  lemma AuthoritiesFollowRole(u1: User, u2: User)
    ensures |GetAuthorities(u1)| == 1
    ensures GetAuthorities(u1) == [Authority(RoleName(u1.role))]
    ensures u1.role != u2.role ==> GetAuthorities(u1) != GetAuthorities(u2)
  {

  }

  /** Lombok's `equals` over the one included field: the ids are equal,
      two `null` ids included. */
  predicate Equals(a: User, b: User): (equal: bool)
    ensures equal ==> a.id == b.id
    ensures equal && HasLongId(a) && HasLongId(b) ==> HashCode(a) == HashCode(b)
  {
    a.id == b.id
  }

  /** An id the `Long` column can hold. */
  predicate HasLongId(user: User) {
    user.id.None? || IsLong(user.id.value)
  }

  /** Lombok's `hashCode`: `1 * 59 + (id == null ? 43 : id.hashCode())`, in
      `int` arithmetic; an `int` whatever the id, 102 for an unsaved user. */
  function HashCode(user: User): (h: int)
    requires HasLongId(user)
    ensures IsInt(h)
    ensures user.id.None? ==> h == 102
  {
    IntAdd(1 * 59, if user.id.None? then 43 else LongHashCode(user.id.value))
  }

  /** Equal users hash alike, and neither depends on anything but `id`. */
  lemma IdentityIsTheId(a: User, b: User, username: string, email: string, password: string, role: Role)
    requires HasLongId(a) && HasLongId(b)
    ensures Equals(a, b) ==> HashCode(a) == HashCode(b)
    ensures var a' := a.(username := username, email := email, password := password, role := role);
      Equals(a, a') && HashCode(a) == HashCode(a')
  {
  }

  /** Two users not yet saved are equal whatever their other fields, and
      hash to 102. */
  lemma UnsavedUsersAreEqual(a: User, b: User)
    requires a.id.None? && b.id.None?
    ensures Equals(a, b) && HashCode(a) == 102 && HashCode(b) == 102
  {
  }
}

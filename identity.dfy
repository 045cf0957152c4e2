/**
 * The identity value types: the user details carried in a token (JwtUserDetails)
 * and the role wrapper used for its authorities (JWTGrantedAuthority).
 */
module Identity {
  import opened Wrappers

  /** A granted authority: one role string held in a mutable field (null is None). */
  class GrantedAuthority {
    var authority: Option<string>

    /** The default constructor leaves the authority unset. */
    constructor Empty()
      ensures authority == None
    {
      authority := None;
    }

    /** The one-argument constructor stores the role it is given. */
    constructor (role: Option<string>)
      ensures authority == role
    {
      authority := role;
    }

    /** Reads the authority; no modifies clause, so no state changes. */
    method GetAuthority() returns (r: Option<string>)
      ensures r == authority
    {
      r := authority;
    }

    /** Overwrites the authority, whatever it was before. */
    method SetAuthority(role: Option<string>)
      modifies this
      ensures authority == role
    {
      authority := role;
    }
  }

  /**
   * The user details record, its fields in declaration order. Every field is
   * nullable; `roleId` is a Java Long and `timeZoneDifference` a Java Integer.
   */
  datatype UserDetails = UserDetails(
    firstName: Option<string>,
    username: Option<string>,
    lastName: Option<string>,
    mobileNo: Option<string>,
    email: Option<string>,
    roleId: Option<int>,
    timeZoneDifference: Option<int>,
    orgCode: Option<string>,
    authorities: Option<seq<GrantedAuthority>>)
  {
    /** Token-based details carry no password. */
    function Password(): (r: Option<string>)
      ensures r.None?
    {
      None
    }

    /** The stored authorities collection, as it is. */
    function Authorities(): (r: Option<seq<GrantedAuthority>>)
      ensures r == authorities
    {
      authorities
    }

    function IsAccountNonExpired(): (r: bool)
      ensures r
    {
      true
    }

    function IsAccountNonLocked(): (r: bool)
      ensures r
    {
      true
    }

    function IsCredentialsNonExpired(): (r: bool)
      ensures r
    {
      true
    }

    function IsEnabled(): (r: bool)
      ensures r
    {
      true
    }
  }

  /**
   * The nine-argument constructor. Its parameters start with `username`,
   * while the record starts with `firstName`; each value still lands in the
   * field of its own name.
   */
  function NewUserDetails(
    username: Option<string>,
    firstName: Option<string>,
    lastName: Option<string>,
    mobileNo: Option<string>,
    email: Option<string>,
    roleId: Option<int>,
    timeZoneDifference: Option<int>,
    orgCode: Option<string>,
    authorities: Option<seq<GrantedAuthority>>): (d: UserDetails)
    ensures d.username == username && d.firstName == firstName && d.lastName == lastName
    ensures d.mobileNo == mobileNo && d.email == email && d.roleId == roleId
    ensures d.timeZoneDifference == timeZoneDifference && d.orgCode == orgCode
    ensures d.authorities == authorities
  {
    UserDetails(firstName, username, lastName, mobileNo, email, roleId,
                timeZoneDifference, orgCode, authorities)
  }

  /** The no-argument constructor: every field is null. */
  function EmptyUserDetails(): (d: UserDetails)
    ensures d.firstName.None? && d.username.None? && d.lastName.None?
    ensures d.mobileNo.None? && d.email.None? && d.roleId.None?
    ensures d.timeZoneDifference.None? && d.orgCode.None? && d.authorities.None?
  {
    UserDetails(None, None, None, None, None, None, None, None, None)
  }
}

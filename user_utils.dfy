/**
 * Bridging the legacy `apartment` field and the newer `discord_name` field
 * of a user record (app/lib/userUtils.js). A missing user is `None`.
 */
module UserUtils {
  import opened Wrappers
  import opened Records

  /** The copy `normalizeUserData` returns for a present user. */
  function NormalizeRecord(u: User): (r: User)
    ensures r.username == u.username && r.password == u.password && r.role == u.role
    ensures Present(u.apartment) && !Present(u.discordName) ==>
              r.apartment == u.apartment && r.discordName == u.apartment
    ensures Present(u.discordName) && !Present(u.apartment) ==>
              r.discordName == u.discordName && r.apartment == u.discordName
    ensures Present(u.apartment) == Present(u.discordName) ==> r == u
    ensures Present(r.apartment) <==> Present(r.discordName)
  {
    var copy := if Present(u.apartment) && !Present(u.discordName)
                then u.(discordName := u.apartment) else u;
    if Present(u.discordName) && !Present(u.apartment)
    then copy.(apartment := u.discordName) else copy
  }

  /** `normalizeUserData`: a missing user stays missing; a normalised record is a fixed point. */
  function NormalizeUserData(u: Option<User>): (r: Option<User>)
    ensures r.None? <==> u.None?
    ensures r.Some? ==> (Present(r.value.apartment) <==> Present(r.value.discordName))
    ensures r.Some? ==> r.value.username == u.value.username && r.value.role == u.value.role
    ensures r.Some? ==> r.value.password == u.value.password
    ensures u.Some? ==> r == Some(NormalizeRecord(u.value))
    ensures r.Some? ==> NormalizeRecord(r.value) == r.value
  {
    match u
    case None => None
    case Some(user) => Some(NormalizeRecord(user))
  }

  /** Normalising twice is normalising once. */
  lemma NormalizeIdempotent(u: Option<User>)
    ensures NormalizeUserData(NormalizeUserData(u)) == NormalizeUserData(u)
  {
  }

  /** `getDisplayName`: `discord_name`, else `apartment`, else "". */
  function GetDisplayName(u: Option<User>): (r: string)
    ensures r == "" <==> u.None? || (!Present(u.value.discordName) && !Present(u.value.apartment))
    ensures u.Some? && Present(u.value.discordName) ==> r == u.value.discordName.value
    ensures u.Some? && !Present(u.value.discordName) && Present(u.value.apartment) ==>
              r == u.value.apartment.value
  {
    match u
    case None => ""
    case Some(user) =>
      if Present(user.discordName) then user.discordName.value
      else if Present(user.apartment) then user.apartment.value
      else ""
  }

  /** Normalising a record never changes the name it is displayed under. */
  lemma DisplayNameSurvivesNormalization(u: Option<User>)
    ensures GetDisplayName(NormalizeUserData(u)) == GetDisplayName(u)
  {
  }
}

/** The user record shared by both store revisions and by the normaliser. */
module Records {
  import opened Wrappers

  /**
   * A resident's account. `apartment` is the legacy display field and
   * `discordName` (`discord_name`) the newer one; either may be missing.
   * `role` is "admin" or "user".
   */
  datatype User = User(
    username: string,
    password: string,
    apartment: Option<string>,
    discordName: Option<string>,
    role: string)

  /** JavaScript truthiness of an optional text field: present and not "". */
  predicate Present(field: Option<string>) {
    field.Some? && field.value != ""
  }

  /** The test `user => user.username === name`. */
  function NamedUser(name: string): User -> bool {
    (u: User) => u.username == name
  }

  /** `{ ...user, role: "user" }`: the record `createUser` stores. */
  function AsRegularUser(u: User): (r: User)
    ensures r.role == "user"
    ensures r.(role := u.role) == u
  {
    u.(role := "user")
  }

  /** The three accounts both stores start with. */
  function SeedUsers(): (r: seq<User>)
    ensures |r| == 3
    ensures forall i, j :: 0 <= i < j < |r| ==> r[i].username != r[j].username
    ensures forall k :: 0 <= k < |r| ==> (r[k].role == "admin" <==> k == 0)
    ensures forall k :: 0 <= k < |r| ==> r[k].role == "admin" || r[k].role == "user"
    ensures forall k :: 0 <= k < |r| ==> Present(r[k].apartment) && r[k].discordName.None?
  {
    [ User("admin", "admin123", Some("1A"), None, "admin"),
      User("maria4b", "password123", Some("4B"), None, "user"),
      User("john12a", "password123", Some("12A"), None, "user") ]
  }
}

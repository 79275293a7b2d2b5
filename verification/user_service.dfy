/** `UserService`: a fixed in-memory list of users and a lookup by id. */
module UserService {
  import opened Wrappers

  datatype SeedUser = SeedUser(id: int, name: string)

  /** The list the service starts with and never changes. */
  const Seeded: seq<SeedUser> := [SeedUser(1, "Alice"), SeedUser(2, "Bob")]

  /** `users.find(u => u.id === id)`: the first user with that id. */
  function FindById(users: seq<SeedUser>, id: int): (r: Option<SeedUser>)
    ensures r.None? <==> forall i :: 0 <= i < |users| ==> users[i].id != id
    ensures r.Some? ==>
              exists i :: && 0 <= i < |users|
                          && users[i] == r.value
                          && r.value.id == id
                          && forall j :: 0 <= j < i ==> users[j].id != id
  {
    if |users| == 0 then None
    else if users[0].id == id then Some(users[0])
    else FindById(users[1..], id)
  }

  /** `getAllUsers()`: Alice then Bob. Their ids are distinct, so every
      listed user is what `getUserById` returns for its id. */
  function GetAllUsers(): (r: seq<SeedUser>)
    ensures |r| == 2 && r[0] == SeedUser(1, "Alice") && r[1] == SeedUser(2, "Bob")
    ensures forall i :: 0 <= i < |r| ==> GetUserById(r[i].id) == Some(r[i])
  {
    Seeded
  }

  /** `getUserById(id)`. */
  function GetUserById(id: int): (r: Option<SeedUser>)
    ensures r.Some? ==> r.value.id == id && r.value in Seeded
    ensures r.None? <==> id != 1 && id != 2
  {
    FindById(Seeded, id)
  }

  /** The two seeded users are found by their ids; any other id finds nothing. */
  lemma SeededLookups(id: int)
    ensures GetUserById(1) == Some(SeedUser(1, "Alice"))
    ensures GetUserById(2) == Some(SeedUser(2, "Bob"))
    ensures id != 1 && id != 2 ==> GetUserById(id) == None
  {
  }
}

/**
 * The collaborators the session service reads users and passwords through:
 * the user table behind `UsersService` and the password hasher behind
 * `HashingService`. Neither is part of the modelled source; this module gives
 * them the smallest behaviour the session logic depends on.
 */
module Users {
  import opened Wrappers
  import opened Exceptions

  /** A user row; `password` is the stored digest, absent when not selected or deleted. */
  datatype User = User(id: string, email: string, password: Option<string>)

  /**
   * A password hasher: `hash` makes a digest, `compare` checks a password
   * against one. The memory-hard function itself is not modelled.
   */
  datatype HashingService = HashingService(hash: string -> string, compare: (string, string) -> bool)

  /** A password always matches its own digest. */
  ghost predicate SoundHashing(h: HashingService)
  {
    forall pw :: h.compare(pw, h.hash(pw))
  }

  /** The first row with this id, or none. */
  function FindById(rows: seq<User>, id: string): (r: Option<User>)
    ensures r.Some? ==> r.value in rows && r.value.id == id
    ensures r.None? ==> forall i :: 0 <= i < |rows| ==> rows[i].id != id
  {
    if |rows| == 0 then None
    else if rows[0].id == id then Some(rows[0])
    else FindById(rows[1..], id)
  }

  /** The first row with this email, or none. */
  function FindByEmail(rows: seq<User>, email: string): (r: Option<User>)
    ensures r.Some? ==> r.value in rows && r.value.email == email
    ensures r.None? ==> forall i :: 0 <= i < |rows| ==> rows[i].email != email
  {
    if |rows| == 0 then None
    else if rows[0].email == email then Some(rows[0])
    else FindByEmail(rows[1..], email)
  }

  /** The user table: ids and emails are unique columns. */
  class UsersService {
    var rows: seq<User>

    constructor()
      ensures rows == []
    {
      rows := [];
    }

    /**
     * `create`: insert a row under the id the database generates (`id`, not
     * yet in use), failing with a unique-constraint violation when the email
     * is taken; returns the selected columns, without the password.
     */
    method Create(id: string, email: string, digest: string) returns (r: Result<User, DbError>)
      requires FindById(rows, id).None?
      modifies this
      ensures r.Err? <==> FindByEmail(old(rows), email).Some?
      ensures r.Err? ==> r.error == UniqueConstraintViolation && rows == old(rows)
      ensures r.Ok? ==> r.value == User(id, email, None) && rows == old(rows) + [User(id, email, Some(digest))]
    {
      if FindByEmail(rows, email).Some? {
        return Err(UniqueConstraintViolation);
      }
      rows := rows + [User(id, email, Some(digest))];
      return Ok(User(id, email, None));
    }
  }
}

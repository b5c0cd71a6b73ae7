/**
 * The user store both servers keep in `users.json`: `readUsers` and `writeUsers`.
 * The file is abstracted to its parsed content.
 */
module Store {
  import opened JsonData
  import opened Wrappers

  /**
   * What `users.json` holds: nothing yet (ENOENT), an array of user objects, or
   * something a read cannot turn into such an array (an I/O error other than
   * ENOENT, text that is not JSON, JSON that is not an array of objects).
   */
  datatype StoreFile = Missing | Holds(users: seq<Doc>) | Unreadable

  /** The users a successful read yields: a missing file reads as the empty list. */
  function Loaded(s: StoreFile): seq<Doc> {
    match s
    case Missing => []
    case Holds(users) => users
    case Unreadable => []
  }

  predicate Readable(s: StoreFile) {
    !s.Unreadable?
  }

  /** The file after a read: a missing file has been created holding `[]`, any other is as it was. */
  function Initialised(s: StoreFile): (r: StoreFile)
    ensures !r.Missing?
    ensures Loaded(r) == Loaded(s) && Readable(r) == Readable(s)
    ensures !s.Missing? ==> r == s
  {
    if s.Missing? then Holds([]) else s
  }

  class UserFile {
    var file: StoreFile

    constructor (initial: StoreFile)
      ensures file == initial
    {
      file := initial;
    }

    /**
     * `readUsers()`: a missing file is created holding `[]` and reads as `[]`;
     * an existing one reads as its content, unchanged; any other failure
     * propagates (None) and the handler answers 500.
     */
    method ReadUsers() returns (r: Option<seq<Doc>>)
      modifies this
      ensures old(file).Missing? ==> file == Holds([]) && r == Some([])
      ensures old(file).Holds? ==> file == old(file) && r == Some(old(file).users)
      ensures old(file).Unreadable? ==> file == old(file) && r == None
      ensures file == Initialised(old(file))
    {
      match file
      case Missing =>
        file := Holds([]);
        r := Some([]);
      case Holds(users) =>
        r := Some(users);
      case Unreadable =>
        r := None;
    }

    /** `writeUsers(users)`: the whole collection is rewritten. */
    method WriteUsers(users: seq<Doc>)
      modifies this
      ensures file == Holds(users)
    {
      file := Holds(users);
    }
  }
}

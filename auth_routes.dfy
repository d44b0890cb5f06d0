/** The account routes of backend/routes/auth.js: the checks of /register, the guarded
    profile update of /update-profile and the two-sided friend addition of /friends/add.
    The comparison of a typed password with the stored hash is an input: whether it
    matches is passed in, since hashing is outside this model. */
module AuthRoutes {
  import opened Wrappers
  import opened Text
  import opened GameRoutes

  /** What a lookup of other users sees of each of them. */
  datatype Entry = Entry(id: string, username: string, email: string)

  /** A stored user document. */
  class Account {
    const id: string
    var username: string
    var email: string
    var password: string
    var friends: seq<string>

    constructor (id: string, username: string, email: string, password: string)
      ensures this.id == id && this.username == username && this.email == email
      ensures this.password == password && friends == []
    {
      this.id := id;
      this.username := username;
      this.email := email;
      this.password := password;
      friends := [];
    }
  }

  // ---------------------------------------------------------------------------------------
  // POST /register

  /** `findOne({ $or: [{ email }, { username }] })`. */
  predicate Exists(directory: seq<Entry>, username: string, email: string) {
    exists k :: 0 <= k < |directory| && (directory[k].email == email || directory[k].username == username)
  }

  /** POST /register: every field is required (an empty string counts as missing), the
      username has 3 to 20 characters, the password at least 6, and no stored user has the
      email or the username. */
  function Register(directory: seq<Entry>, username: string, email: string, password: string, newId: string): (r: Result<Entry, HttpError>)
    ensures r.Success? <==>
      username != "" && email != "" && password != "" && 3 <= |username| <= 20 && |password| >= 6
      && !Exists(directory, username, email)
    ensures r.Success? ==> r.value == Entry(newId, username, email)
    ensures username == "" || email == "" || password == "" ==>
      r == Failure(HttpError(400, "Username, email, and password are required"))
    ensures username != "" && email != "" && password != "" && !(3 <= |username| <= 20) ==>
      r == Failure(HttpError(400, "Username must be between 3 and 20 characters"))
    ensures username != "" && email != "" && 3 <= |username| <= 20 && password != "" && |password| < 6 ==>
      r == Failure(HttpError(400, "Password must be at least 6 characters long"))
    ensures username != "" && email != "" && 3 <= |username| <= 20 && |password| >= 6 && Exists(directory, username, email) ==>
      r == Failure(HttpError(400, "User with this email or username already exists"))
  {
    if username == "" || email == "" || password == "" then Failure(HttpError(400, "Username, email, and password are required"))
    else if |username| < 3 || |username| > 20 then Failure(HttpError(400, "Username must be between 3 and 20 characters"))
    else if |password| < 6 then Failure(HttpError(400, "Password must be at least 6 characters long"))
    else if Exists(directory, username, email) then Failure(HttpError(400, "User with this email or username already exists"))
    else Success(Entry(newId, username, email))
  }

  /** A registered user is never registered twice: the same form is refused once its
      entry is stored. */
  lemma RegisterTwiceRefused(directory: seq<Entry>, username: string, email: string, password: string, id1: string, id2: string)
    requires Register(directory, username, email, password, id1).Success?
    ensures Register(directory + [Register(directory, username, email, password, id1).value], username, email, password, id2)
      == Failure(HttpError(400, "User with this email or username already exists"))
  {
    var all := directory + [Entry(id1, username, email)];
    assert all[|directory|] == Entry(id1, username, email);
  }

  // ---------------------------------------------------------------------------------------
  // PUT /update-profile

  /** `findOne({ username, _id: { $ne: id } })`. */
  predicate UsernameTaken(directory: seq<Entry>, id: string, username: string) {
    exists k :: 0 <= k < |directory| && directory[k].username == username && directory[k].id != id
  }

  /** `findOne({ email, _id: { $ne: id } })`. */
  predicate EmailTaken(directory: seq<Entry>, id: string, email: string) {
    exists k :: 0 <= k < |directory| && directory[k].email == email && directory[k].id != id
  }

  /** The error update-profile answers for the user's current state, checked in the
      route's order, or None when the update goes through. */
  function ProfileUpdateError(directory: seq<Entry>, id: string, oldUsername: string, oldEmail: string, passwordMatches: bool,
                              username: string, email: string, currentPassword: string, newPassword: string): Option<HttpError>
  {
    if username == "" || email == "" then Some(HttpError(400, "Username and email are required"))
    else if |username| < 3 || |username| > 20 then Some(HttpError(400, "Username must be between 3 and 20 characters"))
    else if !LooseEmail(email) then Some(HttpError(400, "Please enter a valid email address"))
    else if username != oldUsername && UsernameTaken(directory, id, username) then Some(HttpError(400, "Username already taken"))
    else if email != oldEmail && EmailTaken(directory, id, email) then Some(HttpError(400, "Email already taken"))
    else if newPassword != "" && currentPassword == "" then Some(HttpError(400, "Current password is required"))
    else if newPassword != "" && !passwordMatches then Some(HttpError(400, "Current password is incorrect"))
    else if newPassword != "" && |newPassword| < 6 then Some(HttpError(400, "New password must be at least 6 characters"))
    else None
  }

  /** An accepted update has a username of 3 to 20 characters and a well-formed e-mail, and
      takes no name or address another user holds unless it is the user's own already; a
      password is changed only with the right current password and a new one of at least
      6 characters. */
  lemma AcceptedUpdate(directory: seq<Entry>, id: string, oldUsername: string, oldEmail: string, passwordMatches: bool,
                       username: string, email: string, currentPassword: string, newPassword: string)
    requires ProfileUpdateError(directory, id, oldUsername, oldEmail, passwordMatches, username, email, currentPassword, newPassword).None?
    ensures 3 <= |username| <= 20 && LooseEmail(email) && !IsBlank(email)
    ensures username == oldUsername || !UsernameTaken(directory, id, username)
    ensures email == oldEmail || !EmailTaken(directory, id, email)
    ensures newPassword != "" ==> currentPassword != "" && passwordMatches && |newPassword| >= 6
  {
    LooseEmailIsNotBlank(email);
  }

  /** PUT /update-profile: on any error nothing changes; otherwise the username and e-mail
      are replaced and the password only when a new one is given. `passwordMatches` is
      what comparing currentPassword with the stored hash answers. */
  method UpdateProfile(user: Account?, directory: seq<Entry>, username: string, email: string,
                       currentPassword: string, newPassword: string, passwordMatches: bool) returns (r: Result<string, HttpError>)
    modifies user
    ensures user == null ==> r == Failure(HttpError(404, "User not found"))
    ensures user != null ==>
      var error := ProfileUpdateError(directory, user.id, old(user.username), old(user.email), passwordMatches,
        username, email, currentPassword, newPassword);
      (error.Some? ==>
         (r == Failure(error.value)
          && user.username == old(user.username) && user.email == old(user.email) && user.password == old(user.password)))
      && (error.None? ==>
         (r == Success("Profile updated successfully")
          && user.username == username && user.email == email
          && user.password == (if newPassword != "" then newPassword else old(user.password))))
    ensures user != null ==> user.friends == old(user.friends)
  {
    if user == null {
      return Failure(HttpError(404, "User not found"));
    }
    if username == "" || email == "" {
      return Failure(HttpError(400, "Username and email are required"));
    }
    if |username| < 3 || |username| > 20 {
      return Failure(HttpError(400, "Username must be between 3 and 20 characters"));
    }
    if !LooseEmail(email) {
      return Failure(HttpError(400, "Please enter a valid email address"));
    }
    if username != user.username && UsernameTaken(directory, user.id, username) {
      return Failure(HttpError(400, "Username already taken"));
    }
    if email != user.email && EmailTaken(directory, user.id, email) {
      return Failure(HttpError(400, "Email already taken"));
    }
    if newPassword != "" {
      if currentPassword == "" {
        return Failure(HttpError(400, "Current password is required"));
      }
      if !passwordMatches {
        return Failure(HttpError(400, "Current password is incorrect"));
      }
      if |newPassword| < 6 {
        return Failure(HttpError(400, "New password must be at least 6 characters"));
      }
      user.password := newPassword;
    }
    user.username := username;
    user.email := email;
    return Success("Profile updated successfully");
  }

  // ---------------------------------------------------------------------------------------
  // POST /friends/add

  /** The two accounts list each other, or neither lists the other. */
  predicate MutualOrNone(a: Account, b: Account)
    reads a, b
  {
    (b.id in a.friends) <==> (a.id in b.friends)
  }

  /** POST /friends/add: the username is required, the friend must exist and not be the
      caller, and must not be a friend already (reading the caller's list; a caller whose
      account is gone makes the route throw). Then each id is appended to the other's
      list. */
  method AddFriend(user: Account?, friend: Account?, me: string, username: string) returns (r: Result<string, HttpError>)
    requires user != null ==> user.id == me
    requires friend != null ==> friend.username == username
    modifies user, friend
    ensures username == "" ==> r == Failure(HttpError(400, "Username is required"))
    ensures username != "" && friend == null ==> r == Failure(HttpError(404, "User not found"))
    ensures username != "" && friend != null && friend.id == me ==> r == Failure(HttpError(400, "Cannot add yourself as a friend"))
    ensures username != "" && friend != null && friend.id != me && user == null ==> r == Failure(HttpError(500, "Server error"))
    ensures username != "" && friend != null && friend.id != me && user != null && friend.id in old(user.friends) ==>
      r == Failure(HttpError(400, "Already friends with this user"))
    ensures r.Failure? ==>
      (user != null ==> user.friends == old(user.friends)) && (friend != null ==> friend.friends == old(friend.friends))
    ensures r.Success? <==>
      username != "" && friend != null && friend.id != me && user != null && friend.id !in old(user.friends)
    ensures r.Success? ==>
      r.value == "Friend added successfully" && user != friend
      && user.friends == old(user.friends) + [friend.id] && friend.friends == old(friend.friends) + [user.id]
    ensures r.Success? && old(MutualOrNone(user, friend)) ==> MutualOrNone(user, friend) && friend.id in user.friends
    ensures user != null ==> user.username == old(user.username) && user.email == old(user.email) && user.password == old(user.password)
    ensures friend != null ==> friend.username == old(friend.username) && friend.email == old(friend.email) && friend.password == old(friend.password)
  {
    if username == "" {
      return Failure(HttpError(400, "Username is required"));
    }
    if friend == null {
      return Failure(HttpError(404, "User not found"));
    }
    if friend.id == me {
      return Failure(HttpError(400, "Cannot add yourself as a friend"));
    }
    if user == null {
      return Failure(HttpError(500, "Server error"));
    }
    if friend.id in user.friends {
      return Failure(HttpError(400, "Already friends with this user"));
    }
    user.friends := user.friends + [friend.id];
    friend.friends := friend.friends + [user.id];
    return Success("Friend added successfully");
  }
}

/** `lib/actions/user-actions.ts`: the `registerUser`, `getAllUsers` and `deleteUser` server actions. */
module UserActions {
  import opened Common
  import opened Seqs
  import opened EntityStore

  /** The submitted form: each field is `formData.get(...)`, absent or a string;
      `role` is absent or one of the three role names. */
  datatype RegisterForm = RegisterForm(name: Option<string>, email: Option<string>, password: Option<string>,
                                       role: Option<Role>)

  /** What an action returns: `{ success: true }` or `{ error }`. */
  datatype ActionResult = Success | Failure(error: string)

  /** `role || "STUDENT"`: a supplied role is taken as it is, ADMIN included. */
  function RoleOrStudent(role: Option<Role>): (r: Role)
    ensures role.Some? ==> r == role.value
    ensures role.None? ==> r == Student
  {
    if role.Some? then role.value else Student
  }

  /** What `registerUser` does before inserting: the required-field check, the
      duplicate-email check, then the user to insert with the hashed password. */
  function RegisterPlan(t: Tables, form: RegisterForm, hash: string -> string): (r: Plan<UserData>)
    ensures (!Given(form.name) || !Given(form.email) || !Given(form.password)) ==> r == Reject("Missing required fields")
    ensures (Given(form.name) && Given(form.email) && Given(form.password)
             && FindUserByEmail(t.users, form.email.value).Some?) ==> r == Reject("User already exists")
    ensures r.Insert? <==> Given(form.name) && Given(form.email) && Given(form.password)
                           && forall u :: u in t.users ==> u.email != form.email.value
    ensures r.Insert? ==> r.data == UserData(form.name.value, form.email.value, hash(form.password.value),
                                             RoleOrStudent(form.role))
  {
    var role := RoleOrStudent(form.role);
    if !Given(form.name) || !Given(form.email) || !Given(form.password) then Reject("Missing required fields")
    else if FindUserByEmail(t.users, form.email.value).Some? then Reject("User already exists")
    else Insert(UserData(form.name.value, form.email.value, hash(form.password.value), role))
  }

  /** The `registerUser` action: checks, then inserts exactly one user; every
      other table and every existing user stay as they were. */
  method RegisterUser(db: Store, form: RegisterForm, hash: string -> string) returns (r: ActionResult)
    requires db.Valid()
    modifies db
    ensures db.Valid()
    ensures RegisterPlan(old(db.Snapshot()), form, hash).Reject? ==>
              r == Failure(RegisterPlan(old(db.Snapshot()), form, hash).error) && db.Snapshot() == old(db.Snapshot())
    ensures RegisterPlan(old(db.Snapshot()), form, hash).Insert? ==>
              var d := RegisterPlan(old(db.Snapshot()), form, hash).data;
              && r == Success
              && db.Snapshot() == old(db.Snapshot()).(users := old(db.users) + [User(old(db.nextId), d.name, d.email, d.password, d.role, old(db.clock))])
  {
    var role := if form.role.Some? then form.role.value else Student;
    if form.name.None? || form.name.value == "" || form.email.None? || form.email.value == ""
       || form.password.None? || form.password.value == "" {
      return Failure("Missing required fields");
    }
    var existing := FindUserByEmail(db.users, form.email.value);
    if existing.Some? {
      return Failure("User already exists");
    }
    var hashed := hash(form.password.value);
    var _ := db.InsertUser(UserData(form.name.value, form.email.value, hashed, role));
    r := Success;
  }

  /** A second registration with an email that is now taken fails, whatever else it says. */
  lemma SecondRegistrationConflicts(t: Tables, form: RegisterForm, again: RegisterForm, hash: string -> string, id: Id, now: int)
    requires RegisterPlan(t, form, hash).Insert?
    requires Given(again.name) && Given(again.password) && again.email == form.email
    ensures var d := RegisterPlan(t, form, hash).data;
            var t' := t.(users := t.users + [User(id, d.name, d.email, d.password, d.role, now)]);
            RegisterPlan(t', again, hash) == Reject("User already exists")
  {
    var d := RegisterPlan(t, form, hash).data;
    var u := User(id, d.name, d.email, d.password, d.role, now);
    assert u in t.users + [u];
  }

  /** A row of `getAllUsers`: every field but the password, and the relation counts. */
  datatype UserSummary = UserSummary(id: Id, name: string, email: string, role: Role, createdAt: int,
                                     coursesCount: nat, enrollmentsCount: nat)

  function Summary(t: Tables, u: User): (s: UserSummary)
    ensures s.id == u.id && s.name == u.name && s.email == u.email && s.role == u.role && s.createdAt == u.createdAt
    ensures s.coursesCount == CoursesTaught(t, u.id) && s.enrollmentsCount == EnrollmentsHeld(t, u.id)
  {
    UserSummary(u.id, u.name, u.email, u.role, u.createdAt, CoursesTaught(t, u.id), EnrollmentsHeld(t, u.id))
  }

  function SummaryCreated(s: UserSummary): int { s.createdAt }

  /** One summary per user, in store order. */
  function Summaries(t: Tables): (r: seq<UserSummary>)
    ensures |r| == |t.users|
    ensures forall i :: 0 <= i < |r| ==> r[i] == Summary(t, t.users[i])
    ensures forall s :: s in r <==> exists u :: u in t.users && s == Summary(t, u)
  {
    var all := seq(|t.users|, i requires 0 <= i < |t.users| => Summary(t, t.users[i]));
    forall u | u in t.users ensures Summary(t, u) in all {
      var i :| 0 <= i < |t.users| && t.users[i] == u;
      assert all[i] == Summary(t, u);
    }
    forall s | s in all ensures exists u :: u in t.users && s == Summary(t, u) {
      var i :| 0 <= i < |all| && all[i] == s;
      assert t.users[i] in t.users;
    }
    all
  }

  /** The `getAllUsers` action: one summary per user, newest first. */
  function GetAllUsers(t: Tables): (r: seq<UserSummary>)
    ensures |r| == |t.users|
    ensures SortedDesc(r, SummaryCreated)
    ensures multiset(r) == multiset(Summaries(t))
    ensures forall s :: s in r <==> exists u :: u in t.users && s == Summary(t, u)
  {
    var all := Summaries(t);
    var r := SortDesc(all, SummaryCreated);
    SameMembers(r, all);
    r
  }

  /** The `deleteUser` action: no authorization check; removes the user with the
      given id and nothing else (no cascade), or reports failure when there is none. */
  method DeleteUser(db: Store, userId: Id) returns (r: ActionResult)
    requires db.Valid()
    modifies db
    ensures db.Valid()
    ensures r == Success <==> FindUser(old(db.users), userId).Some?
    ensures r != Success ==> r == Failure("Failed to delete user")
    ensures db.users == FilterBy(old(db.users), (u: User) => u.id != userId)
    ensures forall u :: u in db.users <==> u in old(db.users) && u.id != userId
    ensures db.Snapshot() == old(db.Snapshot()).(users := db.users)
  {
    var found := db.DeleteUser(userId);
    if found {
      r := Success;
    } else {
      r := Failure("Failed to delete user");
    }
  }
}

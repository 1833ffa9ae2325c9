/**
  The records of the relational store (users, companies, vendors, employees)
  and the store itself, held as immutable maps.
*/
module Models {
  import opened Wrappers

  /** A calendar date, as a day number; the difference of two dates is a count of days. */
  type Day = int

  /** The role tags a user row may carry. */
  const RoleAdmin: string := "admin"
  const RoleCompany: string := "company"
  const RoleVendor: string := "vendor"

  /**
    A login account. `company` and `vendor` are the one-to-one back references
    to the company or vendor row that this user owns, if any.
    The password hash is not modelled.
  */
  datatype User = User(username: string, role: string, company: Option<nat>, vendor: Option<nat>)

  /** A company, owned by exactly one user. */
  datatype Company = Company(name: string, address: string, owner: nat)

  /** A vendor (recruitment agency), owned by exactly one user. */
  datatype Vendor = Vendor(name: string, address: string, owner: nat)

  /**
    An employee, keyed by the Aadhar number. A missing leaving day means the
    employee is still active; a missing vendor means a direct hire.
  */
  datatype Employee = Employee(
    aadhar: string,
    name: string,
    mobile: string,
    permanentAddress: string,
    presentAddress: string,
    previousJob: string,
    duration: string,
    previousSalary: string,
    typeOfJob: string,
    joining: Day,
    leaving: Option<Day>,
    company: nat,
    vendor: Option<nat>)

  /**
    The whole database: one map per table, keyed by primary key, and the next
    value of each auto-increment key.
  */
  datatype Store = Store(
    users: map<nat, User>,
    companies: map<nat, Company>,
    vendors: map<nat, Vendor>,
    employees: map<string, Employee>,
    nextUser: nat,
    nextCompany: nat,
    nextVendor: nat)

  /** Some user row already holds this username. */
  predicate UsernameTaken(s: Store, username: string) {
    exists u :: u in s.users && s.users[u].username == username
  }

  /** Some company row already holds this name. */
  predicate CompanyNameTaken(s: Store, name: string) {
    exists c :: c in s.companies && s.companies[c].name == name
  }

  /** Some vendor row already holds this name. */
  predicate VendorNameTaken(s: Store, name: string) {
    exists v :: v in s.vendors && s.vendors[v].name == name
  }

  /** Auto-increment counters lie above every key in use. */
  predicate FreshKeys(s: Store) {
    && (forall u :: u in s.users ==> u < s.nextUser)
    && (forall c :: c in s.companies ==> c < s.nextCompany)
    && (forall v :: v in s.vendors ==> v < s.nextVendor)
  }

  /** The unique columns: username, company name, vendor name. */
  predicate UniqueColumns(s: Store) {
    && (forall u1, u2 :: u1 in s.users && u2 in s.users && s.users[u1].username == s.users[u2].username ==> u1 == u2)
    && (forall c1, c2 :: c1 in s.companies && c2 in s.companies && s.companies[c1].name == s.companies[c2].name ==> c1 == c2)
    && (forall v1, v2 :: v1 in s.vendors && v2 in s.vendors && s.vendors[v1].name == s.vendors[v2].name ==> v1 == v2)
  }

  /** The owner foreign keys and the users' back references agree, in both directions. */
  predicate OwnershipLinks(s: Store) {
    && (forall c :: c in s.companies ==>
          s.companies[c].owner in s.users && s.users[s.companies[c].owner].company == Some(c))
    && (forall v :: v in s.vendors ==>
          s.vendors[v].owner in s.users && s.users[s.vendors[v].owner].vendor == Some(v))
    && (forall u :: u in s.users && s.users[u].company.Some? ==>
          s.users[u].company.value in s.companies && s.companies[s.users[u].company.value].owner == u)
    && (forall u :: u in s.users && s.users[u].vendor.Some? ==>
          s.users[u].vendor.value in s.vendors && s.vendors[s.users[u].vendor.value].owner == u)
  }

  /** Each employee sits under its own Aadhar key; its company exists and its vendor, if any, exists. */
  predicate EmployeeKeys(s: Store) {
    forall a :: a in s.employees ==>
      && s.employees[a].aadhar == a
      && s.employees[a].company in s.companies
      && (s.employees[a].vendor.Some? ==> s.employees[a].vendor.value in s.vendors)
  }

  /** The integrity constraints every committed state satisfies. */
  predicate Valid(s: Store) {
    FreshKeys(s) && UniqueColumns(s) && OwnershipLinks(s) && EmployeeKeys(s)
  }

  /**
    A user's role decides which ownership link it may carry: only a company
    user owns a company, only a vendor user owns a vendor, and so an admin
    owns neither.
  */
  predicate RoleLinks(s: Store) {
    forall u :: u in s.users ==>
      && (s.users[u].company.Some? ==> s.users[u].role == RoleCompany)
      && (s.users[u].vendor.Some? ==> s.users[u].role == RoleVendor)
  }

  /** The freshly created database: every table empty, every counter at its start. */
  const EmptyStore: Store := Store(map[], map[], map[], map[], 0, 0, 0)

  /** The freshly created database meets every integrity constraint. */
  lemma EmptyStoreValid()
    ensures Valid(EmptyStore)
    ensures RoleLinks(EmptyStore)
  {
  }

  /**
    First-run setup: add an admin account unless a user named "admin" already
    exists. The admin owns no company and no vendor.
  */
  function CreateAdmin(s: Store): (r: Store)
    ensures UsernameTaken(r, "admin")
    ensures UsernameTaken(s, "admin") ==> r == s
    ensures !UsernameTaken(s, "admin") ==>
      && r.users == s.users[s.nextUser := User("admin", RoleAdmin, None, None)]
      && r.companies == s.companies && r.vendors == s.vendors && r.employees == s.employees
  {
    if UsernameTaken(s, "admin") then s
    else
      var r := s.(users := s.users[s.nextUser := User("admin", RoleAdmin, None, None)], nextUser := s.nextUser + 1);
      assert r.users[s.nextUser].username == "admin";
      r
  }

  /** The admin bootstrap keeps every integrity constraint and running it twice changes nothing more. */
  lemma CreateAdminValid(s: Store)
    requires Valid(s)
    ensures Valid(CreateAdmin(s))
    ensures CreateAdmin(CreateAdmin(s)) == CreateAdmin(s)
  {
    if !UsernameTaken(s, "admin") {
      var r := CreateAdmin(s);
      var a := s.nextUser;
      assert a !in s.users;
      forall u1, u2 | u1 in r.users && u2 in r.users && r.users[u1].username == r.users[u2].username
        ensures u1 == u2
      {
        if u1 != a && u2 != a {
          assert s.users[u1].username == s.users[u2].username;
        }
      }
    }
  }

  /** The admin bootstrap adds a user that owns nothing, so every role still matches its links. */
  lemma CreateAdminKeepsRoleLinks(s: Store)
    requires RoleLinks(s)
    ensures RoleLinks(CreateAdmin(s))
  {
  }

  /** A first run on the empty database leaves a valid store holding only the admin. */
  lemma FirstRunValid()
    ensures Valid(CreateAdmin(EmptyStore))
    ensures CreateAdmin(EmptyStore).users == map[0 := User("admin", RoleAdmin, None, None)]
  {
    EmptyStoreValid();
    CreateAdminValid(EmptyStore);
  }

  /** Inserting a new key into a table adds exactly one row. */
  lemma InsertGrowsByOne<K, V>(m: map<K, V>, k: K, v: V)
    requires k !in m
    ensures m[k := v].Keys == m.Keys + {k}
    ensures |m[k := v]| == |m| + 1
  {
    assert |m[k := v].Keys| == |m.Keys| + 1;
  }
}

/**
  The request handlers, each a pure function from the store, the session and
  the request to a response and the next store. Page rendering, flash messages
  and the HTTP layer are abstracted to the `Response` value.
*/
module Routes {
  import opened Wrappers
  import opened Models
  import opened Forms
  import Usernames

  /** The pages a handler renders or redirects to. */
  datatype Page =
    | IndexPage
    | LoginPage
    | AdminDashboardPage
    | AddCompanyPage
    | AddVendorPage
    | CompanyDashboardPage
    | CompanyAddEmployeePage
    | VendorDashboardPage
    | VendorAddEmployeePage

  /** A browser session: nobody signed in, or the key of the signed-in user. */
  datatype Session = Anonymous | SignedIn(userId: nat)

  /** A GET shows the form; a POST submits it. */
  datatype Request<F> = Get | Post(form: F)

  datatype Response =
    | Redirect(target: Page)
    /** A form page, with the validation errors of a rejected submission. */
    | Render(page: Page, errors: set<FormError>)
    /** A dashboard, with the keys of the rows it lists. */
    | Listing(page: Page, companies: set<nat>, vendors: set<nat>, employees: set<string>)
    /** An unhandled exception; the transaction is rolled back. */
    | Fault

  datatype Outcome = Outcome(response: Response, store: Store)

  /** The signed-in user; a session naming a missing user counts as anonymous. */
  function CurrentUser(s: Store, session: Session): (u: Option<User>)
    ensures u.Some? ==> session.SignedIn? && session.userId in s.users && u.value == s.users[session.userId]
    ensures session.SignedIn? && session.userId in s.users ==> u.Some?
  {
    match session
    case Anonymous => None
    case SignedIn(id) => if id in s.users then Some(s.users[id]) else None
  }

  predicate HasRole(s: Store, session: Session, role: string) {
    CurrentUser(s, session).Some? && CurrentUser(s, session).value.role == role
  }

  /** Where a role-guarded handler sends a caller without the role: sign-in when nobody is signed in, the index otherwise. */
  function Bounce(s: Store, session: Session): (r: Response)
    ensures r == Redirect(LoginPage) <==> CurrentUser(s, session).None?
    ensures r == Redirect(IndexPage) <==> CurrentUser(s, session).Some?
  {
    if CurrentUser(s, session).None? then Redirect(LoginPage) else Redirect(IndexPage)
  }

  /** The landing route: each role to its own dashboard, everyone else to sign-in. */
  function Index(s: Store, session: Session): (r: Response)
    ensures r == Redirect(AdminDashboardPage) <==> HasRole(s, session, RoleAdmin)
    ensures r == Redirect(CompanyDashboardPage) <==> HasRole(s, session, RoleCompany)
    ensures r == Redirect(VendorDashboardPage) <==> HasRole(s, session, RoleVendor)
    ensures r == Redirect(LoginPage)
        <==> !(HasRole(s, session, RoleAdmin) || HasRole(s, session, RoleCompany) || HasRole(s, session, RoleVendor))
  {
    match CurrentUser(s, session)
    case None => Redirect(LoginPage)
    case Some(u) =>
      if u.role == RoleAdmin then Redirect(AdminDashboardPage)
      else if u.role == RoleCompany then Redirect(CompanyDashboardPage)
      else if u.role == RoleVendor then Redirect(VendorDashboardPage)
      else Redirect(LoginPage)
  }

  // ---------------------------------------------------------------------------
  // Admin handlers.

  /** The admin dashboard lists every company, vendor and employee. */
  function AdminDashboard(s: Store, session: Session): (r: Response)
    ensures !HasRole(s, session, RoleAdmin) ==> r == Bounce(s, session)
    ensures HasRole(s, session, RoleAdmin) ==>
      r == Listing(AdminDashboardPage, s.companies.Keys, s.vendors.Keys, s.employees.Keys)
  {
    if !HasRole(s, session, RoleAdmin) then Bounce(s, session)
    else Listing(AdminDashboardPage, s.companies.Keys, s.vendors.Keys, s.employees.Keys)
  }

  /** Inserts a new user and the company it owns, linked both ways, under the next free keys. */
  function ProvisionCompany(s: Store, username: string, f: EntityForm): Store {
    var uid := s.nextUser;
    var cid := s.nextCompany;
    s.(users := s.users[uid := User(username, RoleCompany, Some(cid), None)],
       companies := s.companies[cid := Company(f.name, f.address, uid)],
       nextUser := uid + 1,
       nextCompany := cid + 1)
  }

  /** Inserts a new user and the vendor it owns, linked both ways, under the next free keys. */
  function ProvisionVendor(s: Store, username: string, f: EntityForm): Store {
    var uid := s.nextUser;
    var vid := s.nextVendor;
    s.(users := s.users[uid := User(username, RoleVendor, None, Some(vid))],
       vendors := s.vendors[vid := Vendor(f.name, f.address, uid)],
       nextUser := uid + 1,
       nextVendor := vid + 1)
  }

  /**
    Creates a company and its account. The commit fails, and nothing is
    stored, when the derived username or the company name is already taken.
  */
  function AddCompany(s: Store, session: Session, req: Request<EntityForm>): (o: Outcome)
    ensures !HasRole(s, session, RoleAdmin) ==> o == Outcome(Bounce(s, session), s)
    ensures o.response == Redirect(AdminDashboardPage)
        <==> && HasRole(s, session, RoleAdmin) && req.Post?
             && ValidateEntityForm(req.form) == {}
             && !UsernameTaken(s, Usernames.CompanyUsername(req.form.name))
             && !CompanyNameTaken(s, req.form.name)
    ensures o.response.Fault?
        <==> && HasRole(s, session, RoleAdmin) && req.Post?
             && ValidateEntityForm(req.form) == {}
             && (UsernameTaken(s, Usernames.CompanyUsername(req.form.name)) || CompanyNameTaken(s, req.form.name))
    ensures HasRole(s, session, RoleAdmin) && req.Get? ==> o.response == Render(AddCompanyPage, {})
    ensures HasRole(s, session, RoleAdmin) && req.Post? && ValidateEntityForm(req.form) != {}
        ==> o.response == Render(AddCompanyPage, ValidateEntityForm(req.form))
    ensures o.response != Redirect(AdminDashboardPage) ==> o.store == s
  {
    if !HasRole(s, session, RoleAdmin) then Outcome(Bounce(s, session), s)
    else match req
      case Get => Outcome(Render(AddCompanyPage, {}), s)
      case Post(f) =>
        var errs := ValidateEntityForm(f);
        if errs != {} then Outcome(Render(AddCompanyPage, errs), s)
        else
          var username := Usernames.CompanyUsername(f.name);
          if UsernameTaken(s, username) || CompanyNameTaken(s, f.name) then Outcome(Fault, s)
          else Outcome(Redirect(AdminDashboardPage), ProvisionCompany(s, username, f))
  }

  /**
    Creates a vendor and its account. The commit fails, and nothing is
    stored, when the derived username or the vendor name is already taken.
  */
  function AddVendor(s: Store, session: Session, req: Request<EntityForm>): (o: Outcome)
    ensures !HasRole(s, session, RoleAdmin) ==> o == Outcome(Bounce(s, session), s)
    ensures o.response == Redirect(AdminDashboardPage)
        <==> && HasRole(s, session, RoleAdmin) && req.Post?
             && ValidateEntityForm(req.form) == {}
             && !UsernameTaken(s, Usernames.VendorUsername(req.form.name))
             && !VendorNameTaken(s, req.form.name)
    ensures o.response.Fault?
        <==> && HasRole(s, session, RoleAdmin) && req.Post?
             && ValidateEntityForm(req.form) == {}
             && (UsernameTaken(s, Usernames.VendorUsername(req.form.name)) || VendorNameTaken(s, req.form.name))
    ensures HasRole(s, session, RoleAdmin) && req.Get? ==> o.response == Render(AddVendorPage, {})
    ensures HasRole(s, session, RoleAdmin) && req.Post? && ValidateEntityForm(req.form) != {}
        ==> o.response == Render(AddVendorPage, ValidateEntityForm(req.form))
    ensures o.response != Redirect(AdminDashboardPage) ==> o.store == s
  {
    if !HasRole(s, session, RoleAdmin) then Outcome(Bounce(s, session), s)
    else match req
      case Get => Outcome(Render(AddVendorPage, {}), s)
      case Post(f) =>
        var errs := ValidateEntityForm(f);
        if errs != {} then Outcome(Render(AddVendorPage, errs), s)
        else
          var username := Usernames.VendorUsername(f.name);
          if UsernameTaken(s, username) || VendorNameTaken(s, f.name) then Outcome(Fault, s)
          else Outcome(Redirect(AdminDashboardPage), ProvisionVendor(s, username, f))
  }

  // ---------------------------------------------------------------------------
  // Company and vendor handlers.

  /** The employee row a successful add-employee submission inserts: joined today, still active. */
  function NewEmployee(f: EmployeeForm, company: nat, vendor: Option<nat>, today: Day): (e: Employee)
    ensures e.aadhar == f.aadhar && e.joining == today && e.leaving.None?
  {
    Employee(f.aadhar, f.name, f.mobile, f.permanentAddress, f.presentAddress,
             f.previousJob, f.duration, f.previousSalary, f.typeOfJob,
             today, None, company, vendor)
  }

  /** The keys of the employees assigned to company `c`. */
  function EmployeesOfCompany(s: Store, c: nat): set<string> {
    set a | a in s.employees && s.employees[a].company == c
  }

  /** The keys of the employees recruited through vendor `v`. */
  function EmployeesOfVendor(s: Store, v: nat): set<string> {
    set a | a in s.employees && s.employees[a].vendor == Some(v)
  }

  /** A company's dashboard lists that company's employees; a company user without a company row faults. */
  function CompanyDashboard(s: Store, session: Session): (r: Response)
    ensures !HasRole(s, session, RoleCompany) ==> r == Bounce(s, session)
    ensures HasRole(s, session, RoleCompany) && CurrentUser(s, session).value.company.None? ==> r == Fault
    ensures HasRole(s, session, RoleCompany) && CurrentUser(s, session).value.company.Some? ==>
      var c := CurrentUser(s, session).value.company.value;
      r.Listing? && r.page == CompanyDashboardPage && r.companies == {c} &&
      forall a :: a in r.employees <==> a in s.employees && s.employees[a].company == c
  {
    if !HasRole(s, session, RoleCompany) then Bounce(s, session)
    else match CurrentUser(s, session).value.company
      case None => Fault
      case Some(c) => Listing(CompanyDashboardPage, {c}, {}, EmployeesOfCompany(s, c))
  }

  /** A vendor's dashboard lists the employees it recruited; a vendor user without a vendor row faults. */
  function VendorDashboard(s: Store, session: Session): (r: Response)
    ensures !HasRole(s, session, RoleVendor) ==> r == Bounce(s, session)
    ensures HasRole(s, session, RoleVendor) && CurrentUser(s, session).value.vendor.None? ==> r == Fault
    ensures HasRole(s, session, RoleVendor) && CurrentUser(s, session).value.vendor.Some? ==>
      var v := CurrentUser(s, session).value.vendor.value;
      r.Listing? && r.page == VendorDashboardPage && r.vendors == {v} &&
      forall a :: a in r.employees <==> a in s.employees && s.employees[a].vendor == Some(v)
  {
    if !HasRole(s, session, RoleVendor) then Bounce(s, session)
    else match CurrentUser(s, session).value.vendor
      case None => Fault
      case Some(v) => Listing(VendorDashboardPage, {}, {v}, EmployeesOfVendor(s, v))
  }

  /** The form a company submits, with the company field overwritten by the caller's own company. */
  function ScopeToCompany(f: EmployeeForm, u: User): EmployeeForm {
    f.(company := u.company)
  }

  /** The form a vendor submits, with the vendor field overwritten by the caller's own vendor. */
  function ScopeToVendor(f: EmployeeForm, u: User): EmployeeForm {
    f.(vendor := u.vendor)
  }

  /** Validates a scoped form against the store's current rows. */
  function Check(s: Store, f: EmployeeForm): set<FormError> {
    ValidateEmployeeForm(f, s.employees.Keys, s.companies.Keys, s.vendors.Keys)
  }

  /** Stores the employee a valid scoped form describes, under its Aadhar number. */
  function StoreEmployee(s: Store, f: EmployeeForm, today: Day): Store
    requires f.company.Some?
  {
    var e := NewEmployee(f, f.company.value, f.vendor, today);
    s.(employees := s.employees[e.aadhar := e])
  }

  /** A company registers an employee, who is always assigned to the caller's own company. */
  function CompanyAddEmployee(s: Store, session: Session, req: Request<EmployeeForm>, today: Day): (o: Outcome)
    ensures !HasRole(s, session, RoleCompany) ==> o == Outcome(Bounce(s, session), s)
    ensures o.response == Redirect(CompanyDashboardPage)
        <==> && HasRole(s, session, RoleCompany) && req.Post?
             && AcceptableEmployee(ScopeToCompany(req.form, CurrentUser(s, session).value),
                                   s.employees.Keys, s.companies.Keys, s.vendors.Keys)
    ensures HasRole(s, session, RoleCompany) && req.Get? ==> o.response == Render(CompanyAddEmployeePage, {})
    ensures HasRole(s, session, RoleCompany) && req.Post?
        && Check(s, ScopeToCompany(req.form, CurrentUser(s, session).value)) != {}
        ==> o.response == Render(CompanyAddEmployeePage, Check(s, ScopeToCompany(req.form, CurrentUser(s, session).value)))
    ensures o.response != Redirect(CompanyDashboardPage) ==> o.store == s
  {
    if !HasRole(s, session, RoleCompany) then Outcome(Bounce(s, session), s)
    else match req
      case Get => Outcome(Render(CompanyAddEmployeePage, {}), s)
      case Post(f) =>
        var scoped := ScopeToCompany(f, CurrentUser(s, session).value);
        var errs := Check(s, scoped);
        if errs != {} then Outcome(Render(CompanyAddEmployeePage, errs), s)
        else Outcome(Redirect(CompanyDashboardPage), StoreEmployee(s, scoped, today))
  }

  /** A vendor registers an employee, who is always recorded as recruited through the caller's own vendor. */
  function VendorAddEmployee(s: Store, session: Session, req: Request<EmployeeForm>, today: Day): (o: Outcome)
    ensures !HasRole(s, session, RoleVendor) ==> o == Outcome(Bounce(s, session), s)
    ensures o.response == Redirect(VendorDashboardPage)
        <==> && HasRole(s, session, RoleVendor) && req.Post?
             && AcceptableEmployee(ScopeToVendor(req.form, CurrentUser(s, session).value),
                                   s.employees.Keys, s.companies.Keys, s.vendors.Keys)
    ensures HasRole(s, session, RoleVendor) && req.Get? ==> o.response == Render(VendorAddEmployeePage, {})
    ensures HasRole(s, session, RoleVendor) && req.Post?
        && Check(s, ScopeToVendor(req.form, CurrentUser(s, session).value)) != {}
        ==> o.response == Render(VendorAddEmployeePage, Check(s, ScopeToVendor(req.form, CurrentUser(s, session).value)))
    ensures o.response != Redirect(VendorDashboardPage) ==> o.store == s
  {
    if !HasRole(s, session, RoleVendor) then Outcome(Bounce(s, session), s)
    else match req
      case Get => Outcome(Render(VendorAddEmployeePage, {}), s)
      case Post(f) =>
        var scoped := ScopeToVendor(f, CurrentUser(s, session).value);
        var errs := Check(s, scoped);
        if errs != {} then Outcome(Render(VendorAddEmployeePage, errs), s)
        else Outcome(Redirect(VendorDashboardPage), StoreEmployee(s, scoped, today))
  }

  // ---------------------------------------------------------------------------
  // The inserts keep the store's integrity constraints.

  /** The company insert keeps every integrity constraint when the username and company name are new. */
  lemma ProvisionCompanyValid(s: Store, username: string, f: EntityForm)
    requires Valid(s)
    requires !UsernameTaken(s, username) && !CompanyNameTaken(s, f.name)
    ensures Valid(ProvisionCompany(s, username, f))
  {
    ProvisionCompanyUnique(s, username, f);
    ProvisionCompanyLinks(s, username, f);
  }

  /** The company insert keeps usernames and company names unique. */
  lemma ProvisionCompanyUnique(s: Store, username: string, f: EntityForm)
    requires FreshKeys(s) && UniqueColumns(s)
    requires !UsernameTaken(s, username) && !CompanyNameTaken(s, f.name)
    ensures UniqueColumns(ProvisionCompany(s, username, f))
  {
    var s' := ProvisionCompany(s, username, f);
    var uid := s.nextUser;
    var cid := s.nextCompany;
    forall u1, u2 | u1 in s'.users && u2 in s'.users && s'.users[u1].username == s'.users[u2].username
      ensures u1 == u2
    {
      if u1 != uid && u2 != uid {
        assert s'.users[u1] == s.users[u1] && s'.users[u2] == s.users[u2];
      }
    }
    forall c1, c2 | c1 in s'.companies && c2 in s'.companies && s'.companies[c1].name == s'.companies[c2].name
      ensures c1 == c2
    {
      if c1 != cid && c2 != cid {
        assert s'.companies[c1] == s.companies[c1] && s'.companies[c2] == s.companies[c2];
      }
    }
  }

  /** The company insert keeps keys fresh, ownership links two-way and employee references intact. */
  lemma ProvisionCompanyLinks(s: Store, username: string, f: EntityForm)
    requires FreshKeys(s) && OwnershipLinks(s) && EmployeeKeys(s)
    ensures var s' := ProvisionCompany(s, username, f);
      FreshKeys(s') && OwnershipLinks(s') && EmployeeKeys(s')
  {
    var s' := ProvisionCompany(s, username, f);
    var uid := s.nextUser;
    var cid := s.nextCompany;
    assert uid !in s.users && cid !in s.companies;
    forall c | c in s'.companies
      ensures s'.companies[c].owner in s'.users && s'.users[s'.companies[c].owner].company == Some(c)
    {
      if c != cid {
        assert s.companies[c].owner != uid;
      }
    }
    forall v | v in s'.vendors
      ensures s'.vendors[v].owner in s'.users && s'.users[s'.vendors[v].owner].vendor == Some(v)
    {
      assert s.vendors[v].owner != uid;
    }
  }

  /** The vendor insert keeps every integrity constraint when the username and vendor name are new. */
  lemma ProvisionVendorValid(s: Store, username: string, f: EntityForm)
    requires Valid(s)
    requires !UsernameTaken(s, username) && !VendorNameTaken(s, f.name)
    ensures Valid(ProvisionVendor(s, username, f))
  {
    ProvisionVendorUnique(s, username, f);
    ProvisionVendorLinks(s, username, f);
  }

  /** The vendor insert keeps usernames and vendor names unique. */
  lemma ProvisionVendorUnique(s: Store, username: string, f: EntityForm)
    requires FreshKeys(s) && UniqueColumns(s)
    requires !UsernameTaken(s, username) && !VendorNameTaken(s, f.name)
    ensures UniqueColumns(ProvisionVendor(s, username, f))
  {
    var s' := ProvisionVendor(s, username, f);
    var uid := s.nextUser;
    var vid := s.nextVendor;
    forall u1, u2 | u1 in s'.users && u2 in s'.users && s'.users[u1].username == s'.users[u2].username
      ensures u1 == u2
    {
      if u1 != uid && u2 != uid {
        assert s'.users[u1] == s.users[u1] && s'.users[u2] == s.users[u2];
      }
    }
    forall v1, v2 | v1 in s'.vendors && v2 in s'.vendors && s'.vendors[v1].name == s'.vendors[v2].name
      ensures v1 == v2
    {
      if v1 != vid && v2 != vid {
        assert s'.vendors[v1] == s.vendors[v1] && s'.vendors[v2] == s.vendors[v2];
      }
    }
  }

  /** The vendor insert keeps keys fresh, ownership links two-way and employee references intact. */
  lemma ProvisionVendorLinks(s: Store, username: string, f: EntityForm)
    requires FreshKeys(s) && OwnershipLinks(s) && EmployeeKeys(s)
    ensures var s' := ProvisionVendor(s, username, f);
      FreshKeys(s') && OwnershipLinks(s') && EmployeeKeys(s')
  {
    var s' := ProvisionVendor(s, username, f);
    var uid := s.nextUser;
    var vid := s.nextVendor;
    assert uid !in s.users && vid !in s.vendors;
    forall c | c in s'.companies
      ensures s'.companies[c].owner in s'.users && s'.users[s'.companies[c].owner].company == Some(c)
    {
      assert s.companies[c].owner != uid;
    }
    forall v | v in s'.vendors
      ensures s'.vendors[v].owner in s'.users && s'.users[s'.vendors[v].owner].vendor == Some(v)
    {
      if v != vid {
        assert s.vendors[v].owner != uid;
      }
    }
  }

  /** Inserting an employee whose company and vendor exist keeps every integrity constraint. */
  lemma StoreEmployeeValid(s: Store, f: EmployeeForm, today: Day)
    requires Valid(s)
    requires f.company.Some? && f.company.value in s.companies
    requires f.vendor.Some? ==> f.vendor.value in s.vendors
    ensures Valid(StoreEmployee(s, f, today))
  {
    var s' := StoreEmployee(s, f, today);
    var e := NewEmployee(f, f.company.value, f.vendor, today);
    assert s' == s.(employees := s.employees[e.aadhar := e]);
    assert s'.users == s.users && s'.companies == s.companies && s'.vendors == s.vendors;
    forall a | a in s'.employees
      ensures s'.employees[a].aadhar == a
      ensures s'.employees[a].company in s'.companies
      ensures s'.employees[a].vendor.Some? ==> s'.employees[a].vendor.value in s'.vendors
    {
      if a != e.aadhar {
        assert s'.employees[a] == s.employees[a];
      }
    }
  }

  // ---------------------------------------------------------------------------
  // Account provisioning.

  /** The company insert adds one user and one company under fresh keys and leaves every other row alone. */
  lemma ProvisionCompanyShape(s: Store, username: string, f: EntityForm)
    requires FreshKeys(s)
    ensures var s' := ProvisionCompany(s, username, f);
      var uid := s.nextUser;
      var cid := s.nextCompany;
      && uid !in s.users && cid !in s.companies
      && s'.users.Keys == s.users.Keys + {uid}
      && s'.companies.Keys == s.companies.Keys + {cid}
      && |s'.users| == |s.users| + 1 && |s'.companies| == |s.companies| + 1
      && (forall u :: u in s.users ==> s'.users[u] == s.users[u])
      && (forall c :: c in s.companies ==> s'.companies[c] == s.companies[c])
  {
    var uid := s.nextUser;
    var cid := s.nextCompany;
    var s' := ProvisionCompany(s, username, f);
    assert uid !in s.users && cid !in s.companies;
    InsertGrowsByOne(s.users, uid, User(username, RoleCompany, Some(cid), None));
    InsertGrowsByOne(s.companies, cid, Company(f.name, f.address, uid));
  }

  /** The vendor insert adds one user and one vendor under fresh keys and leaves every other row alone. */
  lemma ProvisionVendorShape(s: Store, username: string, f: EntityForm)
    requires FreshKeys(s)
    ensures var s' := ProvisionVendor(s, username, f);
      var uid := s.nextUser;
      var vid := s.nextVendor;
      && uid !in s.users && vid !in s.vendors
      && s'.users.Keys == s.users.Keys + {uid}
      && s'.vendors.Keys == s.vendors.Keys + {vid}
      && |s'.users| == |s.users| + 1 && |s'.vendors| == |s.vendors| + 1
      && (forall u :: u in s.users ==> s'.users[u] == s.users[u])
      && (forall v :: v in s.vendors ==> s'.vendors[v] == s.vendors[v])
  {
    var uid := s.nextUser;
    var vid := s.nextVendor;
    var s' := ProvisionVendor(s, username, f);
    assert uid !in s.users && vid !in s.vendors;
    InsertGrowsByOne(s.users, uid, User(username, RoleVendor, None, Some(vid)));
    InsertGrowsByOne(s.vendors, vid, Vendor(f.name, f.address, uid));
  }

  /**
    A successful add-company creates exactly one user, with the company role
    and the derived username, and exactly one company owned by that user,
    leaving every existing row as it was.
  */
  lemma AddCompanyProvisionsOneAccount(s: Store, session: Session, f: EntityForm)
    requires Valid(s)
    requires AddCompany(s, session, Post(f)).response == Redirect(AdminDashboardPage)
    ensures var s' := AddCompany(s, session, Post(f)).store;
      var uid := s.nextUser;
      var cid := s.nextCompany;
      && uid !in s.users && cid !in s.companies
      && s'.users.Keys == s.users.Keys + {uid}
      && s'.companies.Keys == s.companies.Keys + {cid}
      && |s'.users| == |s.users| + 1 && |s'.companies| == |s.companies| + 1
      && (forall u :: u in s.users ==> s'.users[u] == s.users[u])
      && (forall c :: c in s.companies ==> s'.companies[c] == s.companies[c])
      && s'.users[uid].username == Usernames.CompanyUsername(f.name)
      && s'.users[uid].role == RoleCompany
      && s'.users[uid].company == Some(cid)
      && s'.companies[cid] == Company(f.name, f.address, uid)
      && s'.vendors == s.vendors && s'.employees == s.employees
  {
    assert AddCompany(s, session, Post(f)).store == ProvisionCompany(s, Usernames.CompanyUsername(f.name), f);
    ProvisionCompanyShape(s, Usernames.CompanyUsername(f.name), f);
  }

  /**
    A successful add-vendor creates exactly one user, with the vendor role
    and the derived username, and exactly one vendor owned by that user,
    leaving every existing row as it was.
  */
  lemma AddVendorProvisionsOneAccount(s: Store, session: Session, f: EntityForm)
    requires Valid(s)
    requires AddVendor(s, session, Post(f)).response == Redirect(AdminDashboardPage)
    ensures var s' := AddVendor(s, session, Post(f)).store;
      var uid := s.nextUser;
      var vid := s.nextVendor;
      && uid !in s.users && vid !in s.vendors
      && s'.users.Keys == s.users.Keys + {uid}
      && s'.vendors.Keys == s.vendors.Keys + {vid}
      && |s'.users| == |s.users| + 1 && |s'.vendors| == |s.vendors| + 1
      && (forall u :: u in s.users ==> s'.users[u] == s.users[u])
      && (forall v :: v in s.vendors ==> s'.vendors[v] == s.vendors[v])
      && s'.users[uid].username == Usernames.VendorUsername(f.name)
      && s'.users[uid].role == RoleVendor
      && s'.users[uid].vendor == Some(vid)
      && s'.vendors[vid] == Vendor(f.name, f.address, uid)
      && s'.companies == s.companies && s'.employees == s.employees
  {
    assert AddVendor(s, session, Post(f)).store == ProvisionVendor(s, Usernames.VendorUsername(f.name), f);
    ProvisionVendorShape(s, Usernames.VendorUsername(f.name), f);
  }

  /**
    Two company names that normalise alike derive one username, and the code
    does not look for that clash: once the first is created, submitting the
    second fails at commit and stores nothing, even though its company name is new.
  */
  lemma CollidingCompanyNameFaults(s: Store, session: Session, f1: EntityForm, f2: EntityForm)
    requires Valid(s)
    requires AddCompany(s, session, Post(f1)).response == Redirect(AdminDashboardPage)
    requires ValidateEntityForm(f2) == {}
    requires Usernames.Normalize(f1.name) == Usernames.Normalize(f2.name)
    ensures var s' := AddCompany(s, session, Post(f1)).store;
      AddCompany(s', session, Post(f2)) == Outcome(Fault, s')
  {
    var s' := AddCompany(s, session, Post(f1)).store;
    AddCompanyProvisionsOneAccount(s, session, f1);
    Usernames.CompanyUsernamesCollideIff(f1.name, f2.name);
    assert s'.users[s.nextUser].username == Usernames.CompanyUsername(f2.name);
    assert HasRole(s', session, RoleAdmin);
  }

  // ---------------------------------------------------------------------------
  // The store's integrity constraints hold after every handler.

  /** Whatever the request, add-company leaves a store that meets the integrity constraints. */
  lemma AddCompanyPreservesValid(s: Store, session: Session, req: Request<EntityForm>)
    requires Valid(s)
    ensures Valid(AddCompany(s, session, req).store)
  {
    if AddCompany(s, session, req).response == Redirect(AdminDashboardPage) {
      ProvisionCompanyValid(s, Usernames.CompanyUsername(req.form.name), req.form);
    }
  }

  /** Whatever the request, add-vendor leaves a store that meets the integrity constraints. */
  lemma AddVendorPreservesValid(s: Store, session: Session, req: Request<EntityForm>)
    requires Valid(s)
    ensures Valid(AddVendor(s, session, req).store)
  {
    if AddVendor(s, session, req).response == Redirect(AdminDashboardPage) {
      ProvisionVendorValid(s, Usernames.VendorUsername(req.form.name), req.form);
    }
  }

  /** Whatever the request, the company add-employee handler leaves a store that meets the integrity constraints. */
  lemma CompanyAddEmployeePreservesValid(s: Store, session: Session, req: Request<EmployeeForm>, today: Day)
    requires Valid(s)
    ensures Valid(CompanyAddEmployee(s, session, req, today).store)
  {
    if CompanyAddEmployee(s, session, req, today).response == Redirect(CompanyDashboardPage) {
      StoreEmployeeValid(s, ScopeToCompany(req.form, CurrentUser(s, session).value), today);
    }
  }

  /** Whatever the request, the vendor add-employee handler leaves a store that meets the integrity constraints. */
  lemma VendorAddEmployeePreservesValid(s: Store, session: Session, req: Request<EmployeeForm>, today: Day)
    requires Valid(s)
    ensures Valid(VendorAddEmployee(s, session, req, today).store)
  {
    if VendorAddEmployee(s, session, req, today).response == Redirect(VendorDashboardPage) {
      StoreEmployeeValid(s, ScopeToVendor(req.form, CurrentUser(s, session).value), today);
    }
  }

  // ---------------------------------------------------------------------------
  // Roles keep matching ownership links after every handler.

  /** Add-company links its new company only to a new company-role user. */
  lemma AddCompanyKeepsRoleLinks(s: Store, session: Session, req: Request<EntityForm>)
    requires RoleLinks(s)
    ensures RoleLinks(AddCompany(s, session, req).store)
  {
  }

  /** Add-vendor links its new vendor only to a new vendor-role user. */
  lemma AddVendorKeepsRoleLinks(s: Store, session: Session, req: Request<EntityForm>)
    requires RoleLinks(s)
    ensures RoleLinks(AddVendor(s, session, req).store)
  {
  }

  /** The add-employee handlers leave the user table alone, so roles and links still match. */
  lemma AddEmployeeKeepsRoleLinks(s: Store, session: Session, req: Request<EmployeeForm>, today: Day)
    requires RoleLinks(s)
    ensures RoleLinks(CompanyAddEmployee(s, session, req, today).store)
    ensures RoleLinks(VendorAddEmployee(s, session, req, today).store)
  {
  }

  // ---------------------------------------------------------------------------
  // Scoping of new employees.

  /**
    On the company path the new employee belongs to the caller's own company,
    whatever the form said; the vendor is the one picked on the form, possibly
    none. Exactly one row is added and no other row changes.
  */
  lemma CompanyPathScopesEmployee(s: Store, session: Session, f: EmployeeForm, today: Day)
    requires CompanyAddEmployee(s, session, Post(f), today).response == Redirect(CompanyDashboardPage)
    ensures var s' := CompanyAddEmployee(s, session, Post(f), today).store;
      var u := CurrentUser(s, session).value;
      && u.company.Some?
      && f.aadhar !in s.employees
      && s'.employees.Keys == s.employees.Keys + {f.aadhar}
      && (forall a :: a in s.employees ==> s'.employees[a] == s.employees[a])
      && s'.employees[f.aadhar].company == u.company.value
      && s'.employees[f.aadhar].vendor == f.vendor
      && s'.employees[f.aadhar] == NewEmployee(f, u.company.value, f.vendor, today)
      && s'.users == s.users && s'.companies == s.companies && s'.vendors == s.vendors
  {
  }

  /**
    On the vendor path the new employee is recruited through the caller's own
    vendor, whatever the form said; the company is the one picked on the form.
    Exactly one row is added and no other row changes.
  */
  lemma VendorPathScopesEmployee(s: Store, session: Session, f: EmployeeForm, today: Day)
    requires VendorAddEmployee(s, session, Post(f), today).response == Redirect(VendorDashboardPage)
    ensures var s' := VendorAddEmployee(s, session, Post(f), today).store;
      var u := CurrentUser(s, session).value;
      && f.company.Some?
      && f.aadhar !in s.employees
      && s'.employees.Keys == s.employees.Keys + {f.aadhar}
      && (forall a :: a in s.employees ==> s'.employees[a] == s.employees[a])
      && s'.employees[f.aadhar].company == f.company.value
      && s'.employees[f.aadhar].vendor == u.vendor
      && s'.employees[f.aadhar] == NewEmployee(f, f.company.value, u.vendor, today)
      && s'.users == s.users && s'.companies == s.companies && s'.vendors == s.vendors
  {
  }

  /** The company path never reads the company picked on the form. */
  lemma CompanyPathIgnoresFormCompany(s: Store, session: Session, f: EmployeeForm, c: Option<nat>, today: Day)
    ensures CompanyAddEmployee(s, session, Post(f.(company := c)), today)
         == CompanyAddEmployee(s, session, Post(f), today)
  {
  }

  /** The vendor path never reads the vendor picked on the form. */
  lemma VendorPathIgnoresFormVendor(s: Store, session: Session, f: EmployeeForm, v: Option<nat>, today: Day)
    ensures VendorAddEmployee(s, session, Post(f.(vendor := v)), today)
         == VendorAddEmployee(s, session, Post(f), today)
  {
  }

  /** On the company path, an Aadhar number already on file is rejected with the duplicate error and stores nothing. */
  lemma DuplicateAadharRejected(s: Store, session: Session, f: EmployeeForm, today: Day)
    requires HasRole(s, session, RoleCompany)
    requires f.aadhar in s.employees && Present(f.aadhar)
    ensures var o := CompanyAddEmployee(s, session, Post(f), today);
      o.store == s && o.response.Render? && AadharRegistered in o.response.errors
  {
  }

  /** On the vendor path, an Aadhar number already on file is rejected with the duplicate error and stores nothing. */
  lemma VendorDuplicateAadharRejected(s: Store, session: Session, f: EmployeeForm, today: Day)
    requires HasRole(s, session, RoleVendor)
    requires f.aadhar in s.employees && Present(f.aadhar)
    ensures var o := VendorAddEmployee(s, session, Post(f), today);
      o.store == s && o.response.Render? && AadharRegistered in o.response.errors
  {
  }

  // ---------------------------------------------------------------------------
  // Role isolation.

  /** A company user asking for any admin or vendor page is sent to the index, and nothing is stored. */
  lemma CompanyRoleIsolated(s: Store, session: Session, ef: EntityForm, f: EmployeeForm, today: Day)
    requires HasRole(s, session, RoleCompany)
    ensures AdminDashboard(s, session) == Redirect(IndexPage)
    ensures AddCompany(s, session, Post(ef)) == Outcome(Redirect(IndexPage), s)
    ensures AddVendor(s, session, Post(ef)) == Outcome(Redirect(IndexPage), s)
    ensures VendorDashboard(s, session) == Redirect(IndexPage)
    ensures VendorAddEmployee(s, session, Post(f), today) == Outcome(Redirect(IndexPage), s)
  {
  }

  /** A vendor user asking for any admin or company page is sent to the index, and nothing is stored. */
  lemma VendorRoleIsolated(s: Store, session: Session, ef: EntityForm, f: EmployeeForm, today: Day)
    requires HasRole(s, session, RoleVendor)
    ensures AdminDashboard(s, session) == Redirect(IndexPage)
    ensures AddCompany(s, session, Post(ef)) == Outcome(Redirect(IndexPage), s)
    ensures AddVendor(s, session, Post(ef)) == Outcome(Redirect(IndexPage), s)
    ensures CompanyDashboard(s, session) == Redirect(IndexPage)
    ensures CompanyAddEmployee(s, session, Post(f), today) == Outcome(Redirect(IndexPage), s)
  {
  }

  /** Nobody signed in: every guarded page redirects to sign-in and nothing is stored. */
  lemma AnonymousSentToLogin(s: Store, ef: EntityForm, f: EmployeeForm, today: Day)
    ensures Index(s, Anonymous) == Redirect(LoginPage)
    ensures AdminDashboard(s, Anonymous) == Redirect(LoginPage)
    ensures AddCompany(s, Anonymous, Post(ef)) == Outcome(Redirect(LoginPage), s)
    ensures AddVendor(s, Anonymous, Post(ef)) == Outcome(Redirect(LoginPage), s)
    ensures CompanyDashboard(s, Anonymous) == Redirect(LoginPage)
    ensures CompanyAddEmployee(s, Anonymous, Post(f), today) == Outcome(Redirect(LoginPage), s)
    ensures VendorDashboard(s, Anonymous) == Redirect(LoginPage)
    ensures VendorAddEmployee(s, Anonymous, Post(f), today) == Outcome(Redirect(LoginPage), s)
  {
  }
}

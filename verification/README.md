# Workforce registry: a Dafny model

This project models the logic of a small role-based workforce registry web
application. An admin creates company and vendor accounts. Companies and
vendors register employees in a shared registry keyed by Aadhar number. Each
vendor carries a reputation score computed from the tenure and retention of
the employees it recruited.

The model has three parts, each separated from the web and database plumbing:

- **Reputation score** (`scoring.dfy`, module `Scoring`). This is the vendor's
  `reputation_score` property. Dates are integer day numbers and the current
  date is the parameter `today`. The score is an exact `real`, and the result
  is `NA | Score(value)` rather than a formatted string.
- **Account provisioning and request handling** (`usernames.dfy`, `routes.dfy`).
  Usernames are derived from entity names. Each handler is a pure function from
  a store, a session and a request to a response and the next store. The store
  (`models.dfy`) is a set of immutable maps, one per table, plus auto-increment
  counters. Its integrity constraints are the predicate `Models.Valid`. A second
  invariant, `Models.RoleLinks`, says that only company users own companies
  and only vendor users own vendors, so an admin owns neither.
- **Employee form validation** (`forms.dfy`). The add-employee and
  add-company/add-vendor forms return the set of field errors, and a form is
  accepted when that set is empty.

`wrappers.dfy` holds the `Option` type used for nullable columns.

Two behaviours of the code are kept as written:

- A derived username that collides with an existing one is not reported as a
  validation error. The commit fails on the unique `username` column
  (models.py:10), which the model shows as `Fault` with the store unchanged.
- The score has no clamp. A leaving date before the joining date yields a
  negative tenure and can drive the score below zero (`Scoring.ExampleNegativeTenure`).

## Model

| member | source | states |
|---|---|---|
| Scoring.TallyOf | models.py:51-58 | The active count never exceeds the number of employees. If every tenure is non-negative, the total tenure is non-negative. |
| Scoring.AllActiveIff | models.py:57-58 | The active count equals the head count exactly when no employee has a leaving date. |
| Scoring.NoneActiveIff | models.py:57-58 | The active count is zero exactly when every employee has a leaving date. |
| Scoring.Longevity | models.py:66-67 | The longevity part never exceeds 60. It equals 60 exactly when average tenure is at least 365 days. It is non-negative for a non-negative average and zero only for a zero average. |
| Scoring.Retention | models.py:63-67 | The retention part lies in [0, 40] when active ≤ total. It equals 40 exactly when every employee is active and 0 exactly when none is. |
| Scoring.ReputationScore | models.py:44-68 | The result is `NA` exactly when the vendor has no employees. The score never exceeds 100. When no tenure is negative, it is also at least 0. |
| Scoring.ComputeReputation | models.py:45-68 | The single accumulating loop gives the same result as the recursive definition of tally and score. |
| Scoring.TallyAppend | models.py:53-58 | The tally of a concatenation is the sum of the tallies of its parts. |
| Scoring.TallyPermutation | models.py:53-58 | Any reordering of the same employees gives the same total tenure and active count. |
| Scoring.ScoreOrderIndependent | models.py:53 | The score does not depend on the order in which the employee query returns rows. |
| Scoring.RosterScoreWellDefined | models.py:41 | Any two duplicate-free listings of a vendor's employees give the same score. |
| Scoring.TallyShift | models.py:54-56 | Moving `today` by d days adds d to the total tenure once per active employee and leaves the active count alone. |
| Scoring.ScoreIgnoresTodayWhenNoneActive | models.py:54 | When every employee has a leaving date, the score is the same on every day. |
| Scoring.TenureGrowsWithToday | models.py:54-56 | The total tenure never falls as `today` advances. |
| Scoring.LongevityMonotone | models.py:67 | Longevity never decreases as average tenure grows. |
| Scoring.ScoreMonotoneInToday | models.py:54-67 | For fixed employees, the score never falls as `today` advances. |
| Scoring.PerfectScoreIff | models.py:60-67 | The score is 100 exactly when average tenure is at least 365 days and every employee is active. |
| Scoring.ExampleOneYearActive | models.py:60-67 | One active employee who joined 365 days ago scores 100. |
| Scoring.ExampleHalfYearActive | models.py:60-68 | One active employee who joined 182 days ago scores 182/365·60 + 40, which rounds to 69.92. |
| Scoring.ExampleTwoWithoutTenure | models.py:60-67 | Two employees with zero tenure, one of them gone, score 20. |
| Scoring.ExampleNegativeTenure | models.py:55 | A leaving day 365 days before the joining day gives a score of -60, because nothing clamps tenure. |
| Usernames.LowerChar | routes.py:57 | ASCII lowercasing sends each capital to the lowercase letter at the same place in the alphabet and leaves every other character alone. The result is never uppercase, and only a space maps to a space. |
| Usernames.LowerCharTable | routes.py:57 | Against the alphabet tables "A…Z" and "a…z", each capital lowercases to the letter at the same position. |
| Usernames.LowerCharCoversUppers | routes.py:57 | Every capital appears in the table, so the table fixes the case mapping of every capital. |
| Usernames.RemoveSpaces | routes.py:57 | The result has no `' '` and is no longer than the input. Every character in it comes from the input. |
| Usernames.Normalize | routes.py:57 | The normalised name has no spaces and no uppercase ASCII letters, and is no longer than the name. |
| Usernames.CompanyUsername | routes.py:57 | A company's derived username has no spaces and no uppercase ASCII letters. |
| Usernames.VendorUsername | routes.py:76 | A vendor's derived username has no spaces and no uppercase ASCII letters. |
| Usernames.NormalizeAppend | routes.py:57 | Normalisation works character by character: normalising a concatenation concatenates the normal forms. |
| Usernames.NormalFormFixed | routes.py:57 | A string without spaces or uppercase letters is its own normal form. |
| Usernames.NormalizeIdempotent | routes.py:57 | Normalising a second time changes nothing. |
| Usernames.NormalizeIgnoresSpace | routes.py:57 | Inserting a space anywhere in a name leaves its normal form unchanged. |
| Usernames.NormalizeIgnoresCase | routes.py:57 | Changing the case of one ASCII letter leaves the normal form unchanged. |
| Usernames.CompanyUsernamesCollideIff | routes.py:57 | Two company names derive the same username exactly when their normal forms are equal. |
| Usernames.VendorUsernamesCollideIff | routes.py:76 | Two vendor names derive the same username exactly when their normal forms are equal. |
| Usernames.DerivedUsernamesDistinct | routes.py:57-76 | A company username never equals a vendor username, and neither equals "admin". |
| Usernames.ExampleCollision | routes.py:57 | "A b" and "AB" both derive "ab_company". |
| Forms.ValidateEmployeeForm | forms.py:28-47 | The error set is empty exactly when the whole of the form's demands holds. Those demands are a non-blank, 12-character, unregistered Aadhar value, the required fields non-blank, an existing company, and a vendor that is blank or existing. |
| Forms.PresentIffStripped | forms.py:29-37 | The required-data check passes exactly when stripping the value's surrounding whitespace (Python's whitespace set) leaves something. |
| Forms.ValidateEntityForm | forms.py:18-26 | The add-company/add-vendor form is accepted exactly when name and address are both non-blank. |
| Forms.AadharLengthEnforced | forms.py:29 | An Aadhar value whose length is not 12 is rejected, with a length error when it is non-blank. |
| Forms.RegisteredAadharRejected | forms.py:44-47 | An Aadhar value already on file is rejected, with the duplicate error when it is non-blank. |
| Forms.LengthAndDuplicateBothReported | forms.py:29-47 | A wrong-length value that is also on file draws both errors, because the length error does not stop the chain. |
| Forms.BlankAadharStopsChain | forms.py:29 | A blank Aadhar value draws only the missing-data error. |
| Forms.FreshAadharPasses | forms.py:44-47 | A fresh, non-blank, 12-character value draws no Aadhar error, whatever its characters. |
| Forms.RequiredFieldsEnforced | forms.py:30-37 | Name, mobile number, both addresses and job type are each reported exactly when blank. |
| Forms.OptionalFieldsUnchecked | forms.py:34-36 | Previous job, duration and previous salary have no effect on validation. |
| Forms.CompanyRequiredVendorOptional | forms.py:40-41 | The company choice is an error exactly when blank or unknown. The vendor choice is an error only when it names an unknown row, and blank means a direct hire. |
| Routes.CurrentUser | app.py:15-17 | A session resolves to a user exactly when it names an existing user row. |
| Routes.Bounce | routes.py:41-44 | A guarded handler sends an anonymous caller to sign-in and a signed-in caller without the role to the index. `Routes.AnonymousSentToLogin`, `Routes.CompanyRoleIsolated` and `Routes.VendorRoleIsolated` show every guarded handler taking these two outcomes and storing nothing. |
| Models.EmptyStoreValid | app.py:25 | The freshly created, empty database meets every integrity constraint, and every user's role matches its ownership links. |
| Models.CreateAdmin | app.py:23-31 | After first-run setup a user named "admin" exists. The setup adds one admin row when none exists and otherwise changes nothing. |
| Models.CreateAdminValid | app.py:23-31 | First-run setup keeps every integrity constraint, and running it a second time changes nothing. |
| Models.CreateAdminKeepsRoleLinks | app.py:27 | The admin row owns no company and no vendor, so after first-run setup only company users own companies and only vendor users own vendors. |
| Models.FirstRunValid | app.py:23-34 | The first run on an empty database gives a valid store whose only user is the admin. |
| Routes.Index | routes.py:10-18 | admin, company and vendor users are each sent to their own dashboard. Anonymous callers and every other role go to sign-in. |
| Routes.AdminDashboard | routes.py:42-48 | A non-admin is bounced. An admin sees every company, vendor and employee. |
| Routes.AddCompany | routes.py:52-67 | A non-admin is bounced and nothing is stored. It succeeds exactly on a valid POST whose derived username and company name are new. It faults exactly when one of them is taken. An admin's GET shows the empty form, and a rejected POST shows the form again with its field errors. Otherwise the store is unchanged. |
| Routes.AddVendor | routes.py:71-86 | The same as add-company, with the vendor suffix and the vendor name column: success, fault on a taken name, the empty form on GET and the form with its field errors on a rejected POST. |
| Routes.NewEmployee | models.py:84-85 | A new employee row keeps the submitted Aadhar number, joins on `today` and has no leaving date. |
| Routes.CompanyDashboard | routes.py:92-97 | A non-company caller is bounced. A company user sees exactly its own company's employees, and one without a company row faults. |
| Routes.VendorDashboard | routes.py:130-135 | A non-vendor caller is bounced. A vendor user sees exactly the employees it recruited, and one without a vendor row faults. |
| Routes.CompanyAddEmployee | routes.py:101-125 | A non-company caller is bounced and nothing is stored. It succeeds exactly on a POST that passes validation after the company field is forced to the caller's company. A GET shows the empty form, and a rejected POST shows the form again with every validation error of the scoped form. Otherwise the store is unchanged. |
| Routes.VendorAddEmployee | routes.py:139-163 | A non-vendor caller is bounced and nothing is stored. It succeeds exactly on a POST that passes validation after the vendor field is forced to the caller's vendor. A GET shows the empty form, and a rejected POST shows the form again with every validation error of the scoped form. Otherwise the store is unchanged. |
| Routes.ProvisionCompanyShape | routes.py:58-63 | The company insert adds one user row and one company row under fresh keys and leaves every existing row alone. |
| Routes.ProvisionVendorShape | routes.py:77-82 | The vendor insert adds one user row and one vendor row under fresh keys and leaves every existing row alone. |
| Routes.AddCompanyProvisionsOneAccount | routes.py:57-64 | A successful add-company creates exactly one user, with role company and the derived username, and one company linked to it both ways. Nothing else changes. |
| Routes.AddVendorProvisionsOneAccount | routes.py:76-83 | A successful add-vendor creates exactly one user, with role vendor and the derived username, and one vendor linked to it both ways. Nothing else changes. |
| Routes.CollidingCompanyNameFaults | routes.py:57-64 | After one company is created, a second name with the same normal form faults at commit and stores nothing, even though the company name itself is new. |
| Routes.ProvisionCompanyValid | models.py:26-31 | The company insert keeps every integrity constraint when the username and company name are new. |
| Routes.ProvisionCompanyUnique | models.py:10 | The company insert keeps usernames and company names unique. |
| Routes.ProvisionCompanyLinks | models.py:14-15 | The company insert keeps keys fresh, ownership links two-way and employee foreign keys intact. |
| Routes.ProvisionVendorValid | models.py:36-41 | The vendor insert keeps every integrity constraint when the username and vendor name are new. |
| Routes.ProvisionVendorUnique | models.py:38 | The vendor insert keeps usernames and vendor names unique. |
| Routes.ProvisionVendorLinks | models.py:40 | The vendor insert keeps keys fresh, ownership links two-way and employee foreign keys intact. |
| Routes.StoreEmployeeValid | models.py:88-89 | Inserting an employee whose company and vendor exist keeps every integrity constraint. |
| Routes.AddCompanyPreservesValid | routes.py:56-64 | Whatever the request, add-company leaves a store that meets the integrity constraints. |
| Routes.AddVendorPreservesValid | routes.py:75-83 | Whatever the request, add-vendor leaves a store that meets the integrity constraints. |
| Routes.CompanyAddEmployeePreservesValid | routes.py:107-122 | Whatever the request, the company add-employee handler leaves a store that meets the integrity constraints. |
| Routes.VendorAddEmployeePreservesValid | routes.py:145-160 | Whatever the request, the vendor add-employee handler leaves a store that meets the integrity constraints. |
| Routes.AddCompanyKeepsRoleLinks | routes.py:57-63 | Add-company links its new company only to a new user whose role is company, so every user still owns only what its role allows. |
| Routes.AddVendorKeepsRoleLinks | routes.py:76-82 | Add-vendor links its new vendor only to a new user whose role is vendor, so every user still owns only what its role allows. |
| Routes.AddEmployeeKeepsRoleLinks | routes.py:107-122 | Neither add-employee handler touches the user table, so every user still owns only what its role allows. |
| Routes.CompanyPathScopesEmployee | routes.py:106-122 | On success the new employee belongs to the caller's own company, and its vendor is the form's choice, possibly none. Exactly one row is added and no other row changes. |
| Routes.VendorPathScopesEmployee | routes.py:144-160 | On success the new employee is recorded under the caller's own vendor, and its company is the form's choice. Exactly one row is added and no other row changes. |
| Routes.CompanyPathIgnoresFormCompany | routes.py:106 | The company path's outcome does not depend on the company picked on the form. |
| Routes.VendorPathIgnoresFormVendor | routes.py:144 | The vendor path's outcome does not depend on the vendor picked on the form. |
| Routes.DuplicateAadharRejected | routes.py:107 | On the company path, a submission whose Aadhar number is already on file is shown again with the duplicate error, and nothing is stored. |
| Routes.VendorDuplicateAadharRejected | routes.py:145 | On the vendor path, a submission whose Aadhar number is already on file is shown again with the duplicate error, and nothing is stored. |
| Routes.CompanyRoleIsolated | routes.py:43-141 | A company user requesting an admin or vendor page is redirected to the index, and nothing is stored. |
| Routes.VendorRoleIsolated | routes.py:43-103 | A vendor user requesting an admin or company page is redirected to the index, and nothing is stored. |
| Routes.AnonymousSentToLogin | routes.py:11-18 | With nobody signed in, the index and every guarded page redirect to sign-in, and nothing is stored. For the guarded pages the redirect comes from `@login_required` at routes.py lines 41, 51, 70, 91, 100, 129 and 138. |

## Left out

- Sign-in and sign-out (routes.py:20-37): these are session plumbing. Checking a password needs the hashing library, which is not part of this model.
- Password hashing (models.py:17-21) and the shared default password given to new accounts. A user row carries no password.
- The app setup and the user loader's database query in app.py: these are setup over the database, not logic. `Routes.CurrentUser` stands in for the loader, and `Models.CreateAdmin` models the admin bootstrap without its password.
- Rendering, flash messages, `url_for` and the `next` parameter of the sign-in redirect. A handler's result is a `Response` value.
- CSRF checking inside form submission: it is library behaviour with no counterpart in the store.
- Floating-point arithmetic and the two-decimal `"… / 100"` formatting (models.py:68). The score is exact `real` arithmetic.
- The clock: `date.today()` is the parameter `today`.
- Usernames.LowerChar: lowercases ASCII letters only. Python's `str.lower` also maps non-ASCII letters, and that Unicode case mapping is not modelled.
- Forms.ValidateEmployeeForm: a drop-down choice is modelled as the selected row key. How the form library turns posted text into a row is not modelled. An unknown key is an error, following the select field's own choice check.
- Column lengths (`String(15)`, `String(64)`, `String(140)`, …) are not modelled. The model assumes a database backend that ignores declared lengths, as SQLite does; the backend is chosen in config.py, which is not part of this model. On a backend that enforces `VARCHAR(n)`, an over-long value (a 16-character mobile number, say, which passes validation at forms.py:31 but exceeds models.py:77) fails at commit, and that fault is not modelled.
- Routes.CompanyAddEmployee, Routes.VendorAddEmployee: a submission that passes validation is stored. This assumes declared column lengths are not enforced, as in the previous line.
- Concurrent requests are not modelled. Each handler is one atomic transaction, and a failed commit leaves the store unchanged.

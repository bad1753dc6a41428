# Pharmacy back end: staff privileges, sale arithmetic, object permission, staff serializer

A Dafny model of the logic in the Django pharmacy application:

- **Staff privileges** (`pharmacy_app/models.py`). A `Staff` account carries a role
  (`Admin`, `Cashier`, `Warehouse`, default `Admin`). Every `save` overwrites the two
  Django flags `is_staff` and `is_superuser` with "the role is Admin". `Staff` is a
  Dafny class whose fields are updated in place. Its methods are tied to pure
  functions on a `StaffState` snapshot: `Saved`, `Assigned` (attribute assignment)
  and `Initial` (construction with defaults).
- **Choice enums and defaults** (`models.py`). A new Sale is `InProgress` and paid by
  `Card`, and a new ProductBatch is `Purchased`, unless told otherwise.
- **Sale arithmetic** (`models.py`). `SaleProduct.total` is `quantity * retailPrice` and
  `ProductBatch.profit_per_sale` is `retailPrice - unitPrice`. Both operands are
  `DecimalField`s with two decimal places, held here as integers in hundredths. The
  arithmetic is Python's `decimal.Decimal` under the default context: the exact result
  is rounded to 28 significant digits with ROUND_HALF_EVEN (module `PyDecimal`).
  The model proves that the total is returned unrounded, as the product in
  ten-thousandths, exactly when the product has at most 28 digits. A wider product is
  rounded to 28 digits, and its value changes only if a dropped digit is non-zero;
  either way it lies within half a unit of its last kept digit. Two values which both
  fit the `max_digits=20` column can have a total whose value the rounding changes.
- **Object permission** (`pharmacy_app/permissions.py`). `IsOwnerOrAdmin.has_object_permission`
  is a pure decision over the HTTP method, ownership and `is_staff`. Composed with
  `Staff.save`, it gives "only Admin-role staff may delete".
- **Staff serializer** (`pharmacy_app/serializers.py`). `create` and `update` pop the
  password out of the validated data. They copy every other supplied field onto the
  object and set the password only through `set_password`. Then they save, which
  re-derives the flags. The update loop assigns the fields one at a time, in any
  order, and is proved equal to `Updated`, a definition field by field.

Code against documentation: the docstring of `IsOwnerOrAdmin` says users may update
their own data (`permissions.py:6`, and the comment on line 13). The code grants
only GET, POST and DELETE and denies every other method, PUT and PATCH included
(`permissions.py:18`). The model follows the code.

Files: `wrappers.dfy` (Option), `decimal.dfy` (module `PyDecimal`), `models.dfy`,
`permissions.dfy`, `serializers.dfy`.

## Model

| member | source | states |
|---|---|---|
| `Models.ParseRole` | pharmacy_app/models.py:9-12 | a role column value reads back as the choice whose stored value it is, and as no choice when it matches none |
| `Models.Saved` | pharmacy_app/models.py:20-27 | save changes no attribute other than the two flags |
| `Models.SavedFlagsFollowRole` | pharmacy_app/models.py:22-25 | for any role value, after save `is_superuser` equals `is_staff`, and both are true exactly when the role column holds the Admin choice |
| `Models.SavedClearsNonAdmin` | pharmacy_app/models.py:23-25 | saving a Cashier or Warehouse staff leaves both flags cleared, whatever they were before |
| `Models.SavedIgnoresPriorFlags` | pharmacy_app/models.py:23-25 | the flags are overwritten, not accumulated: their earlier values do not affect the result of save |
| `Models.SavedIdempotent` | pharmacy_app/models.py:20-27 | saving twice leaves the same state as saving once |
| `Models.DefaultRoleElevates` | pharmacy_app/models.py:15-25 | a Staff built without a role gets role Admin, so save sets both flags |
| `Models.Assigned` | pharmacy_app/serializers.py:21-22 | assigning a set of attributes gives each named attribute its new value, leaves every other attribute alone and does not touch the flags |
| `Models.AssignedStep` | pharmacy_app/serializers.py:21-22 | assigning one more attribute after a batch equals assigning the extended batch, so the loop's order does not matter |
| `Models.Initial` | pharmacy_app/models.py:14-15 | a Staff built from keyword arguments holds each given attribute, the empty string for the others, role Admin when none is given, and neither flag |
| `Models.Staff.constructor` | pharmacy_app/models.py:14-15 | `Staff(**kwargs)` holds the given attributes over the defaults: empty strings, role Admin, neither flag set |
| `Models.Staff.SetAttr` | pharmacy_app/serializers.py:22 | `setattr` changes the named attribute only |
| `Models.Staff.SetPassword` | pharmacy_app/serializers.py:15 | `set_password` stores the hash of the raw password and changes nothing else |
| `Models.Staff.Save` | pharmacy_app/models.py:20-27 | the object's new state is `Saved` of its old state |
| `Models.NewSale` | pharmacy_app/models.py:47-48 | a Sale built without a status is InProgress, one built without a payment type is paid by Card, and the other columns are as given |
| `Models.NewSaleDefaults` | pharmacy_app/models.py:47-48 | a new Sale has status InProgress and payment type Card unless given others, and keeps what it is given |
| `Models.NewBatch` | pharmacy_app/models.py:110-112 | a ProductBatch as first inserted has source Purchased when none is given, its arrival date is the clock reading at that insert, and the other columns are as given |
| `Models.NewBatchDefaults` | pharmacy_app/models.py:110-112 | a new ProductBatch has source Purchased unless given another, keeps a given source, and its arrival date is the clock reading at its first save |
| `PyDecimal.Mul` | pharmacy_app/models.py:85-87 | the product's sign is the product of the signs, and a product of at most 28 digits is returned unrounded |
| `PyDecimal.Sub` | pharmacy_app/models.py:117-119 | for operands with the same exponent, the difference keeps the sign of the exact difference and is returned unrounded when it has at most 28 digits |
| `Models.Total` | pharmacy_app/models.py:85-87 | `SaleProduct.total` has the sign of quantity × retailPrice, is never finer than ten-thousandths, and is that product, unrounded, when it has at most 28 digits |
| `Models.TotalExact` | pharmacy_app/models.py:85-87 | a line total is quantity × retailPrice exactly, in ten-thousandths, when that product has at most 28 digits |
| `Models.TotalExactIff` | pharmacy_app/models.py:81-87 | the line total is returned unrounded, as `Dec(quantity × retailPrice, −4)`, if and only if the product has at most 28 digits; a wider product is rounded to 28 digits |
| `Models.TotalWithinHalfUnit` | pharmacy_app/models.py:85-87 | a rounded line total differs from quantity × retailPrice by at most half a unit of its last kept digit |
| `Models.TotalExactForModerateValues` | pharmacy_app/models.py:81-87 | the total is returned unrounded, as the exact product, whenever quantity and price are both below 10^12 units |
| `Models.TotalRoundsLargeColumnValues` | pharmacy_app/models.py:81-87 | quantity = price = 10^17 + 0.01 both fit `max_digits=20`, yet their total is rounded and its value differs from their product |
| `Models.TotalZeroIff` | pharmacy_app/models.py:85-87 | the total is zero exactly when the quantity or the price is zero |
| `Models.TotalPositive` | pharmacy_app/models.py:85-87 | a positive quantity at a positive price has a positive total |
| `Models.ProfitPerSale` | pharmacy_app/models.py:117-119 | `profit_per_sale` has the sign of retailPrice − unitPrice and is that difference exactly, in hundredths, when it has at most 28 digits |
| `Models.ProfitExact` | pharmacy_app/models.py:107-119 | for prices that fit their columns, `profit_per_sale` is exactly retailPrice − unitPrice |
| `Models.ProfitNonNegativeIff` | pharmacy_app/models.py:117-119 | `profit_per_sale` is non-negative if and only if retailPrice ≥ unitPrice, for all prices |
| `Permissions.HasObjectPermission` | pharmacy_app/permissions.py:10-18 | permission is granted only for GET, POST or DELETE and only to the owner or to staff, and staff are granted all three |
| `Permissions.ReadPostGrant` | pharmacy_app/permissions.py:12-13 | GET and POST are granted exactly to the object itself and to staff |
| `Permissions.NonStaffSeesOnlyOwnRecord` | pharmacy_app/permissions.py:13 | a non-staff user may GET their own record and may not GET another's |
| `Permissions.DeleteOnlyStaff` | pharmacy_app/permissions.py:15-16 | DELETE is granted exactly when the requester is staff, whoever owns the record |
| `Permissions.OtherMethodsDenied` | pharmacy_app/permissions.py:18 | every other method, PUT and PATCH included, is denied to everyone, staff included |
| `Permissions.MonotoneInStaff` | pharmacy_app/permissions.py:10-18 | turning `is_staff` on never changes an allow into a deny |
| `Permissions.OnlyAdminMayDelete` | pharmacy_app/permissions.py:15-16 | with the flags as save leaves them, DELETE is granted exactly to Admin-role staff |
| `Serializers.PopPassword` | pharmacy_app/serializers.py:12 | popping the password yields it when supplied (else nothing) and leaves every other supplied field and no password |
| `Serializers.Created` | pharmacy_app/serializers.py:12-15 | the new Staff before save holds every supplied non-password field and defaults elsewhere, the hash of a non-empty supplied password (else the empty default), and neither flag |
| `Serializers.Updated` | pharmacy_app/serializers.py:20-24 | the instance before save holds every supplied non-password field and its old values elsewhere, the hash of a non-empty supplied password (else the old password), and its old flags |
| `Serializers.Create` | pharmacy_app/serializers.py:11-17 | create returns a new Staff whose state is `Saved(Created(data))` |
| `Serializers.Update` | pharmacy_app/serializers.py:19-26 | update returns the same instance, whose new state is `Saved(Updated(old state, data))` |
| `Serializers.CreatePassword` | pharmacy_app/serializers.py:12-16 | create stores the hash of a non-empty supplied password and otherwise the empty default, never the raw password |
| `Serializers.CreateFields` | pharmacy_app/serializers.py:12-13 | create copies every supplied non-password field and gives the others their defaults |
| `Serializers.CreateDefaultsToAdmin` | pharmacy_app/serializers.py:13-16 | a staff created without a role is an Admin with both flags set |
| `Serializers.UpdateCopiesSupplied` | pharmacy_app/serializers.py:21-22 | update copies every supplied non-password field onto the instance |
| `Serializers.UpdateKeepsUnsupplied` | pharmacy_app/serializers.py:19-25 | update leaves every attribute that was not supplied unchanged |
| `Serializers.UpdatePassword` | pharmacy_app/serializers.py:20-24 | a missing or empty password leaves the stored password unchanged. A non-empty one is replaced by its hash, never by the raw string |
| `Serializers.UpdateRederivesFlags` | pharmacy_app/serializers.py:25 | after update both flags are equal and true exactly when the resulting role (supplied or kept) is Admin |

## Left out

- Persistence: `super().save()`, `instance.save()` and the database are not modelled. Save is modelled as its in-memory effect only.
- Password hashing: `set_password`'s hash function is a parameter (`hash`) and is not interpreted. Django salts the hash at random, so two calls with the same raw password store different strings; the model's `hash: string -> string` is deterministic and drops the salt.
- `Staff.guid` (a random `uuid4`) and the inherited `AbstractUser` fields outside the serializer's field list (`is_active`, `date_joined`, groups, permissions) are not modelled.
- `obj == request.user` in the permission check is taken as a boolean `isOwner`. Django's model equality (same model and primary key) is not modelled.
- Decimal exponent limits (`Emin`, `Emax`, subnormals, overflow) are not modelled; column values cannot reach them.
- Negative zero is not modelled. The columns have no sign validator, so a zero factor times a negative one is possible, and Python's `total` then returns `Decimal('-0.0000')`. That equals 0 in value; the model's coefficient carries the sign, so it holds both as the one value `Dec(0, -4)`.
- The exponent Python gives the difference of a zero operand and an operand of a different exponent is not modelled: the value agrees, the representation may differ. Column values share one exponent, so this does not arise for them.
- Operands are integers in hundredths. An unsaved object whose quantity or price is None or a float is outside the model; for such an object `total` or `profit_per_sale` raises TypeError.
- The `max_digits` limit is enforced by the database and by validation, not by the formulas. It appears only as the `FitsColumn` hypothesis.
- `SaleProduct.status` has no declared default (Django would store the empty string). The model requires a status to be given.
- `Sale.totalAmount` is a plain column with no formula in the model class. No sale-total aggregation exists in the modelled code, so none is modelled.
- `Category`, `Product` and `ProductPriceHistory` are plain records with no logic. They are not modelled.
- `__str__` methods are not modelled. `ProductBatch.__str__` refers to a `warehouse_product` field the model does not have.
- FIFO stock consumption, stock-availability checks, price-history recording and sale closing are not implemented by the modelled code, so none is modelled.
- Views, URL routing, admin registration, signals, the thread-local current-user middleware and the seeding commands are framework wiring or I/O. They are not part of this model.

/** The Django models of the pharmacy application: staff accounts whose
    privilege flags follow their role, sales, sale line items, product batches,
    and the fixed-point formulas on them. */
module Models {
  import opened Wrappers
  import opened PyDecimal

  // ---------------------------------------------------------------- Staff

  /** Staff.StaffRoleChoices */
  datatype StaffRole = Admin | Cashier | Warehouse

  /** The value stored in the role column for each choice. */
  function RoleLabel(r: StaffRole): string {
    match r
    case Admin => "Admin"
    case Cashier => "Cashier"
    case Warehouse => "Warehouse"
  }

  /** Reads a role column value back as a choice; None for a value outside the choices. */
  function ParseRole(s: string): (r: Option<StaffRole>)
    ensures r.Some? ==> RoleLabel(r.value) == s
    ensures forall x :: RoleLabel(x) == s ==> r == Some(x)
  {
    if s == "Admin" then Some(Admin)
    else if s == "Cashier" then Some(Cashier)
    else if s == "Warehouse" then Some(Warehouse)
    else None
  }

  /** The role a Staff row gets when none is given. */
  const DefaultRole: StaffRole := Admin

  /** The string attributes of a Staff that can be set by name. */
  datatype StaffAttr = Username | Password | FirstName | LastName | Email | Role

  /** A snapshot of a Staff object's modelled attributes. `password` is the stored
      (hashed) password; `role` is the raw column value. */
  datatype StaffState = StaffState(
    username: string,
    password: string,
    firstName: string,
    lastName: string,
    email: string,
    role: string,
    isStaff: bool,
    isSuperuser: bool)

  /** getattr(staff, a) */
  function Get(s: StaffState, a: StaffAttr): string {
    match a
    case Username => s.username
    case Password => s.password
    case FirstName => s.firstName
    case LastName => s.lastName
    case Email => s.email
    case Role => s.role
  }

  /** Two snapshots that agree on every attribute and both flags are equal. */
  lemma StateExtensionality(x: StaffState, y: StaffState)
    requires forall a :: Get(x, a) == Get(y, a)
    requires x.isStaff == y.isStaff && x.isSuperuser == y.isSuperuser
    ensures x == y
  {
    assert Get(x, Username) == Get(y, Username);
    assert Get(x, Password) == Get(y, Password);
    assert Get(x, FirstName) == Get(y, FirstName);
    assert Get(x, LastName) == Get(y, LastName);
    assert Get(x, Email) == Get(y, Email);
    assert Get(x, Role) == Get(y, Role);
  }

  /** The value an attribute takes: the one in `fields` when it is there. */
  function Pick(fields: map<StaffAttr, string>, a: StaffAttr, current: string): string {
    if a in fields then fields[a] else current
  }

  /** s with every attribute named in `fields` set to its value there, in any
      order (the attributes are distinct, so the order does not matter). */
  function Assigned(s: StaffState, fields: map<StaffAttr, string>): (r: StaffState)
    ensures forall a :: Get(r, a) == if a in fields then fields[a] else Get(s, a)
    ensures r.isStaff == s.isStaff && r.isSuperuser == s.isSuperuser
  {
    StaffState(
      Pick(fields, Username, s.username),
      Pick(fields, Password, s.password),
      Pick(fields, FirstName, s.firstName),
      Pick(fields, LastName, s.lastName),
      Pick(fields, Email, s.email),
      Pick(fields, Role, s.role),
      s.isStaff,
      s.isSuperuser)
  }

  /** Assigning one more attribute after a batch is assigning the extended batch. */
  lemma AssignedStep(s: StaffState, fields: map<StaffAttr, string>, a: StaffAttr, v: string)
    ensures Assigned(Assigned(s, fields), map[a := v]) == Assigned(s, fields[a := v])
  {
    StateExtensionality(Assigned(Assigned(s, fields), map[a := v]), Assigned(s, fields[a := v]));
  }

  /** A Staff built with no arguments: every string field empty except the role,
      which is the default role; neither flag set. */
  const Blank: StaffState :=
    StaffState("", "", "", "", "", RoleLabel(DefaultRole), false, false)

  /** Staff(**kwargs): the given attributes over the defaults. */
  function Initial(kwargs: map<StaffAttr, string>): (r: StaffState)
    ensures forall a :: Get(r, a) == if a in kwargs then kwargs[a] else Get(Blank, a)
    ensures r.role == (if Role in kwargs then kwargs[Role] else RoleLabel(Admin))
    ensures !r.isStaff && !r.isSuperuser
  {
    Assigned(Blank, kwargs)
  }

  /** Whether a role column value is the Admin choice (`isAdmin` in Staff.save). */
  predicate IsAdminRole(role: string) {
    role == RoleLabel(Admin)
  }

  /** The state Staff.save leaves: both flags recomputed from the role, nothing
      else touched. */
  function Saved(s: StaffState): (r: StaffState)
    ensures forall a :: Get(r, a) == Get(s, a)
  {
    var isAdmin := IsAdminRole(s.role);
    s.(isStaff := isAdmin, isSuperuser := isAdmin)
  }

  /** After save the two flags are equal, and true exactly when the role column
      holds the Admin choice, whatever value the column holds. */
  lemma SavedFlagsFollowRole(s: StaffState)
    ensures Saved(s).isStaff == Saved(s).isSuperuser
    ensures Saved(s).isStaff <==> IsAdminRole(s.role)
    ensures Saved(s).isStaff <==> ParseRole(s.role) == Some(Admin)
  {
  }

  /** Saving a Cashier or Warehouse staff leaves both flags cleared, whatever
      they were before. */
  lemma SavedClearsNonAdmin(s: StaffState)
    requires s.role == RoleLabel(Cashier) || s.role == RoleLabel(Warehouse)
    ensures !Saved(s).isStaff && !Saved(s).isSuperuser
  {
  }

  /** The flags are overwritten, not accumulated: what they were before save
      has no effect on the result. */
  lemma SavedIgnoresPriorFlags(s: StaffState, isStaff: bool, isSuperuser: bool)
    ensures Saved(s.(isStaff := isStaff, isSuperuser := isSuperuser)) == Saved(s)
  {
  }

  /** Saving twice gives what saving once gives. */
  lemma SavedIdempotent(s: StaffState)
    ensures Saved(Saved(s)) == Saved(s)
  {
  }

  /** A Staff created without a role is an Admin and is elevated once saved. */
  lemma DefaultRoleElevates(kwargs: map<StaffAttr, string>)
    requires Role !in kwargs
    ensures Saved(Initial(kwargs)).isStaff && Saved(Initial(kwargs)).isSuperuser
  {
  }

  /** A Staff account. Its fields are updated in place by attribute assignment,
      by SetPassword and by Save. */
  class Staff {
    var username: string
    var password: string
    var firstName: string
    var lastName: string
    var email: string
    var role: string
    var isStaff: bool
    var isSuperuser: bool

    function State(): StaffState
      reads this
    {
      StaffState(username, password, firstName, lastName, email, role, isStaff, isSuperuser)
    }

    /** Staff(**kwargs) */
    constructor (kwargs: map<StaffAttr, string>)
      ensures State() == Initial(kwargs)
    {
      username := Pick(kwargs, Username, Blank.username);
      password := Pick(kwargs, Password, Blank.password);
      firstName := Pick(kwargs, FirstName, Blank.firstName);
      lastName := Pick(kwargs, LastName, Blank.lastName);
      email := Pick(kwargs, Email, Blank.email);
      role := Pick(kwargs, Role, Blank.role);
      isStaff := Blank.isStaff;
      isSuperuser := Blank.isSuperuser;
    }

    /** setattr(staff, a, v) */
    method SetAttr(a: StaffAttr, v: string)
      modifies this
      ensures State() == Assigned(old(State()), map[a := v])
    {
      match a
      case Username => username := v;
      case Password => password := v;
      case FirstName => firstName := v;
      case LastName => lastName := v;
      case Email => email := v;
      case Role => role := v;
      StateExtensionality(State(), Assigned(old(State()), map[a := v]));
    }

    /** AbstractBaseUser.set_password: stores the hash of the raw password; the
        hash function is a parameter. */
    method SetPassword(raw: string, hash: string -> string)
      modifies this`password
      ensures State() == old(State()).(password := hash(raw))
    {
      password := hash(raw);
    }

    /** Staff.save: recomputes both privilege flags from the role, then persists
        (persistence is not modelled). */
    method Save()
      modifies this`isStaff, this`isSuperuser
      ensures State() == Saved(old(State()))
    {
      var isAdmin := role == RoleLabel(Admin);
      isStaff := isAdmin;
      isSuperuser := isAdmin;
    }
  }

  // ---------------------------------------------------------------- Sale

  /** Sale.SaleStatusChoices */
  datatype SaleStatus = InProgress | Closed

  /** Sale.PaymentTypeChoices */
  datatype PaymentType = Card | Cash

  /** A Sale row. Foreign keys are ids; a nullable one is an Option. */
  datatype Sale = Sale(
    saleId: nat,
    code: string,
    recorder: Option<nat>,
    totalAmount: Dec,
    status: SaleStatus,
    paymentType: PaymentType)

  /** Sale(...): status and payment type take their declared defaults when not given. */
  function NewSale(saleId: nat, code: string, recorder: Option<nat>, totalAmount: Dec,
                   status: Option<SaleStatus>, paymentType: Option<PaymentType>): (s: Sale)
    ensures status.None? ==> s.status == InProgress
    ensures paymentType.None? ==> s.paymentType == Card
    ensures s.saleId == saleId && s.code == code && s.recorder == recorder && s.totalAmount == totalAmount
  {
    Sale(saleId, code, recorder, totalAmount, status.GetOr(InProgress), paymentType.GetOr(Card))
  }

  /** A new Sale is in progress and paid by card unless told otherwise, and keeps
      whatever it is told. */
  lemma NewSaleDefaults(saleId: nat, code: string, recorder: Option<nat>, totalAmount: Dec,
                        status: Option<SaleStatus>, paymentType: Option<PaymentType>)
    ensures var s := NewSale(saleId, code, recorder, totalAmount, status, paymentType);
            && s.status == (if status.Some? then status.value else InProgress)
            && s.paymentType == (if paymentType.Some? then paymentType.value else Card)
  {
  }

  // ---------------------------------------------------------------- SaleProduct

  /** SaleProduct.SaleProductStatusChoices */
  datatype SaleProductStatus = Sold | Returned | Pending

  /** A sale line item. Quantity and retail price are DecimalFields with two
      decimal places, held here as integers in hundredths. */
  datatype SaleProduct = SaleProduct(
    sale: Option<nat>,
    product: Option<nat>,
    quantity: int,
    retailPrice: int,
    status: SaleProductStatus)

  /** A column value of max_digits=20, decimal_places=2, in hundredths. */
  predicate FitsColumn(x: int) {
    Abs(x) < Pow10(20)
  }

  /** SaleProduct.total: quantity * retailPrice as Decimals. */
  function Total(item: SaleProduct): (r: Dec)
    ensures Sign(r.coeff) == Sign(item.quantity) * Sign(item.retailPrice)
    ensures r.exp >= -4
    ensures Abs(item.quantity * item.retailPrice) < Pow10(Precision)
            ==> r == Dec(item.quantity * item.retailPrice, -4)
  {
    Mul(Dec(item.quantity, -2), Dec(item.retailPrice, -2))
  }

  /** The total is the exact product, in ten-thousandths, whenever that product
      has at most 28 digits. */
  lemma TotalExact(item: SaleProduct)
    requires Abs(item.quantity * item.retailPrice) < Pow10(Precision)
    ensures Total(item) == Dec(item.quantity * item.retailPrice, -4)
  {
  }

  /** In particular the total is exact when both factors are below 10^12 units. */
  lemma TotalExactForModerateValues(item: SaleProduct)
    requires Abs(item.quantity) < Pow10(14) && Abs(item.retailPrice) < Pow10(14)
    ensures Total(item) == Dec(item.quantity * item.retailPrice, -4)
  {
    Pow10Add(14, 14);
    var q, p := Abs(item.quantity), Abs(item.retailPrice);
    MulStrict(q, p, Pow10(14));
    AbsMul(item.quantity, item.retailPrice);
  }

  lemma MulStrict(x: nat, y: nat, b: nat)
    requires x < b && y < b
    ensures x * y < b * b
  {
    assert x * y <= x * b;
    assert x * b < b * b;
  }

  /** The total is returned unrounded, as the product in ten-thousandths, exactly
      when that product has at most 28 digits; a wider product is rounded to 28
      digits (its value changes only if a dropped digit is non-zero). */
  lemma TotalExactIff(item: SaleProduct)
    ensures Total(item) == Dec(item.quantity * item.retailPrice, -4)
            <==> Abs(item.quantity * item.retailPrice) < Pow10(Precision)
  {
    FixWithinPrecision(Dec(item.quantity * item.retailPrice, -4));
  }

  /** A rounded total lies within half a unit of its own last digit of the exact
      product: |total - quantity × retailPrice| <= 10^total.exp / 2. */
  lemma TotalWithinHalfUnit(item: SaleProduct)
    ensures var r := Total(item); var p := Pow10(r.exp + 4);
            2 * Abs(r.coeff * p - item.quantity * item.retailPrice) <= p
  {
    var exact := Dec(item.quantity * item.retailPrice, -4);
    assert Total(item) == Fix(exact);
    FixError(exact);
  }

  /** Two values that both fit the column can still have a product that Python's
      default 28-digit context rounds, and here the rounding changes the value:
      10^17 + 0.01 units at 10^17 + 0.01. The exact product is an odd number of
      ten-thousandths, the rounded total a whole number of thousandths. */
  lemma TotalRoundsLargeColumnValues(item: SaleProduct)
    requires item.quantity == item.retailPrice == Pow10(19) + 1
    ensures FitsColumn(item.quantity) && FitsColumn(item.retailPrice)
    ensures Total(item) != Dec(item.quantity * item.retailPrice, -4)
    ensures var r := Total(item);
            r.exp > -4 && r.coeff * Pow10(r.exp + 4) != item.quantity * item.retailPrice
  {
    var x := item.quantity;
    WideValue(Pow10(19), x);
    assert Abs(item.quantity * item.retailPrice) >= Pow10(Precision);
    TotalExactIff(item);
    var m := 5 * Pow10(18);
    assert x == 2 * m + 1;
    OddSquare(m, x);
    var exact := Dec(x * x, -4);
    assert Total(item) == Fix(exact);
    RoundingOddChangesValue(exact, 2 * m * m + 2 * m);
  }

  lemma OddSquare(m: int, x: int)
    requires x == 2 * m + 1
    ensures x * x == 2 * (2 * m * m + 2 * m) + 1
  {
  }

  /** 10^19 + 1 hundredths fits the column, and its square has more than 28 digits. */
  lemma WideValue(p: nat, x: int)
    requires p == Pow10(19) && x == p + 1
    ensures FitsColumn(x) && x * x >= Pow10(Precision)
  {
    assert Pow10(20) == 10 * p;
    Pow10Add(19, 19);
    Pow10Monotone(Precision, 38);
    assert p * p >= Pow10(Precision);
    SquareGrows(p);
  }

  lemma SquareGrows(p: nat)
    ensures (p + 1) * (p + 1) > p * p
  {
  }

  /** The total is zero exactly when the quantity or the price is zero. */
  lemma TotalZeroIff(item: SaleProduct)
    ensures Total(item).coeff == 0 <==> item.quantity == 0 || item.retailPrice == 0
  {
  }

  /** A positive quantity at a positive price has a positive total. */
  lemma TotalPositive(item: SaleProduct)
    requires item.quantity > 0 && item.retailPrice > 0
    ensures Total(item).coeff > 0
  {
  }

  // ---------------------------------------------------------------- ProductBatch

  /** ProductBatch.ProductBatchSourceChoices */
  datatype BatchSource = Purchased | Returned

  /** A batch of stock. Quantities and prices in hundredths; the arrival date is
      the clock reading at the first save (insert). */
  datatype ProductBatch = ProductBatch(
    product: nat,
    recorder: Option<nat>,
    quantity: int,
    unitPrice: int,
    retailPrice: int,
    source: BatchSource,
    arrivalDate: int)

  /** A ProductBatch as first inserted: the source defaults to Purchased, and
      the arrival date is the clock reading at that first save (`now`), which
      auto_now_add writes over any value given before. */
  function NewBatch(product: nat, recorder: Option<nat>, quantity: int, unitPrice: int,
                    retailPrice: int, source: Option<BatchSource>, now: int): (b: ProductBatch)
    ensures source.None? ==> b.source == Purchased
    ensures b.arrivalDate == now
    ensures b.product == product && b.recorder == recorder
    ensures b.quantity == quantity && b.unitPrice == unitPrice && b.retailPrice == retailPrice
  {
    ProductBatch(product, recorder, quantity, unitPrice, retailPrice, source.GetOr(Purchased), now)
  }

  /** A new batch is Purchased unless told otherwise, keeps a given source, and
      arrives at its first save. */
  lemma NewBatchDefaults(product: nat, recorder: Option<nat>, quantity: int, unitPrice: int,
                         retailPrice: int, source: Option<BatchSource>, now: int)
    ensures var b := NewBatch(product, recorder, quantity, unitPrice, retailPrice, source, now);
            && b.source == (if source.Some? then source.value else Purchased)
            && b.arrivalDate == now
  {
  }

  /** ProductBatch.profit_per_sale: retailPrice - unitPrice as Decimals. */
  function ProfitPerSale(b: ProductBatch): (r: Dec)
    ensures Sign(r.coeff) == Sign(b.retailPrice - b.unitPrice)
    ensures Abs(b.retailPrice - b.unitPrice) < Pow10(Precision) ==> r == Dec(b.retailPrice - b.unitPrice, -2)
  {
    Sub(Dec(b.retailPrice, -2), Dec(b.unitPrice, -2))
  }

  /** For column values the profit is the exact difference, in hundredths. */
  lemma ProfitExact(b: ProductBatch)
    requires FitsColumn(b.retailPrice) && FitsColumn(b.unitPrice)
    ensures ProfitPerSale(b) == Dec(b.retailPrice - b.unitPrice, -2)
  {
    Pow10Add(20, 8);
    assert Pow10(8) >= 2 by { Pow10Add(1, 7); }
  }

  /** The profit is non-negative exactly when the retail price is at least the
      unit price, for any two prices. */
  lemma ProfitNonNegativeIff(b: ProductBatch)
    ensures ProfitPerSale(b).coeff >= 0 <==> b.retailPrice >= b.unitPrice
  {
  }
}

/** The plain records the install wizard collects before it writes anything:
    one per entity the host ERP creates. A record that carries an id stands
    for a row that already exists and was picked for reuse; a record without
    one is still to be created. */
module Records {
  import opened Wrappers

  /** How a record created by the apply step refers to the language or
      tenant it belongs to: a stored row, or the row created earlier in the
      same run. */
  datatype Ref = Stored(id: nat) | CreatedInRun

  datatype Language = Language(id: Option<nat>, name: string, languageCode: string, isoName: string)

  datatype Currency = Currency(id: Option<nat>, name: string, iso: string, symbol: string, isDefault: bool)

  datatype Tenant = Tenant(
    id: Option<nat>,
    name: string,
    tenantCode: string,
    email: string,
    phone: Option<string>,
    street: Option<string>,
    postcode: Option<string>,
    city: Option<string>,
    isDefault: bool)

  /** rate is the rate_percentage in ten-thousandths: 0.1900 is 1900. */
  datatype VatRate = VatRate(id: Option<nat>, name: string, rate: int, isDefault: bool)

  datatype PaymentType = PaymentType(
    id: Option<nat>,
    name: string,
    description: Option<string>,
    isActive: bool,
    isDefault: bool)

  /** The administrator account. Keys the source leaves out of a record are
      None here (a reused account has no password, user code or timezone). */
  datatype AdminUser = AdminUser(
    id: Option<nat>,
    firstname: string,
    lastname: string,
    email: string,
    password: Option<string>,
    timezone: Option<string>,
    userCode: Option<string>,
    isActive: Option<bool>,
    languageId: Option<Ref>)

  /** Everything the wizard has collected; orderTypes holds enum values. */
  datatype WizardState = WizardState(
    language: Language,
    currency: Currency,
    tenant: Tenant,
    vatRates: seq<VatRate>,
    paymentTypes: seq<PaymentType>,
    orderTypes: seq<string>,
    user: AdminUser)

  /** The row a created record points to for its language or tenant: the
      stored row with that id when the collected record has one (the row
      whereKey() finds), otherwise the row created earlier in the same
      run. */
  function RefOf(id: Option<nat>): (r: Ref)
    ensures r.Stored? <==> id.Some?
    ensures r.Stored? ==> r.id == id.value
  {
    if id.Some? then Stored(id.value) else CreatedInRun
  }
}

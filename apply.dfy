/** The apply step of the wizard (finishInstallation): which rows it creates
    from the collected records and what it finds in the database. The
    database is seen through the keys the step looks up before creating,
    plus a log of the rows created; each host action is an oracle that
    either accepts a row (and the row is appended) or rejects it. */
module Apply {
  import opened Wrappers
  import opened Records

  /** The keys the existence checks look up: language codes, order-type
      enum values, price-list codes and warehouse names. */
  datatype Keys = Keys(
    languageCodes: set<string>,
    orderTypes: set<string>,
    priceListCodes: set<string>,
    warehouseNames: set<string>)

  /** The part of the database the apply step reads and writes. */
  datatype DbView = DbView(keys: Keys, created: seq<Action>)

  /** One call of a host Create* action; the order-type and payment-type
      rows belong to the tenant named by their Ref. */
  datatype Action =
    | CreateLanguage(language: Language)
    | CreateCurrency(currency: Currency)
    | CreateTenant(tenant: Tenant)
    | CreateUser(user: AdminUser)
    | CreateVatRate(vatRate: VatRate)
    | CreatePaymentType(paymentType: PaymentType, owner: Ref)
    | CreateOrderType(value: string, owner: Ref)
    | CreateDefaultPriceList
    | CreateDefaultWarehouse

  /** The fallback language added when the chosen one is not English. */
  const English: Language := Language(None, "English", "en", "en")

  const DefaultPriceListCode: string := "default"
  const DefaultWarehouseName: string := "Default"

  /** The keys after one accepted action. */
  function KeysAfter(k: Keys, a: Action): (r: Keys) {
    match a
    case CreateLanguage(l) => k.(languageCodes := k.languageCodes + {l.languageCode})
    case CreateOrderType(value, _) => k.(orderTypes := k.orderTypes + {value})
    case CreateDefaultPriceList => k.(priceListCodes := k.priceListCodes + {DefaultPriceListCode})
    case CreateDefaultWarehouse => k.(warehouseNames := k.warehouseNames + {DefaultWarehouseName})
    case _ => k
  }

  /** The actions whose rows no existence check looks up. */
  predicate KeysKept(a: Action) {
    a.CreateCurrency? || a.CreateTenant? || a.CreateUser? || a.CreateVatRate? || a.CreatePaymentType?
  }

  /** The database after one accepted action: the row is logged and its key
      becomes visible to later checks. */
  function After(v: DbView, a: Action): (w: DbView)
    ensures w.created == v.created + [a]
  {
    DbView(KeysAfter(v.keys, a), v.created + [a])
  }

  /** The outcome of a run of actions: the database reached and the action
      that was rejected, if one was. */
  datatype RunResult = RunResult(view: DbView, rejected: Option<Action>)

  /** Executes actions in order; the first action the database does not
      accept stops the run, leaving the rows created before it. */
  function Run(v: DbView, acts: seq<Action>, accepts: (DbView, Action) -> bool): (r: RunResult)
  {
    if acts == [] then RunResult(v, None)
    else
      var r := Run(v, acts[..|acts| - 1], accepts);
      var a := acts[|acts| - 1];
      if r.rejected.Some? then r
      else if accepts(r.view, a) then RunResult(After(r.view, a), None)
      else RunResult(r.view, Some(a))
  }

  /** A completed run logs exactly its actions; a stopped run logs the
      actions before the rejected one, which is one of the actions. */
  lemma {:induction false} RunLog(v: DbView, acts: seq<Action>, accepts: (DbView, Action) -> bool)
    ensures var r := Run(v, acts, accepts);
      (r.rejected.None? ==> r.view.created == v.created + acts)
      && (r.rejected.Some? ==> exists k :: 0 <= k < |acts| && acts[k] == r.rejected.value
                                           && r.view.created == v.created + acts[..k])
  {
    if acts != [] {
      var front := acts[..|acts| - 1];
      RunLog(v, front, accepts);
      var r := Run(v, front, accepts);
      if r.rejected.Some? {
        var k :| 0 <= k < |front| && front[k] == r.rejected.value && r.view.created == v.created + front[..k];
        assert front[..k] == acts[..k];
      } else {
        assert acts == front + [acts[|acts| - 1]];
        assert acts[..|acts| - 1] == front;
      }
    }
  }

  /** Running two lists of actions one after the other is running their
      concatenation. */
  lemma {:induction false} RunAppend(v: DbView, a: seq<Action>, b: seq<Action>, accepts: (DbView, Action) -> bool)
    ensures var r := Run(v, a, accepts);
      Run(v, a + b, accepts) == if r.rejected.Some? then r else Run(r.view, b, accepts)
  {
    if b != [] {
      var front := b[..|b| - 1];
      assert (a + b)[..|a + b| - 1] == a + front;
      assert (a + b)[|a + b| - 1] == b[|b| - 1];
      RunAppend(v, a, front, accepts);
    } else {
      assert a + b == a;
    }
  }

  /** The actions a run attempts and, when an order-type value is not an
      enum case, that value: OrderTypeEnum::from throws on it, which stops
      the step after the actions before it. */
  datatype Plan = Plan(creates: seq<Action>, halt: Option<string>)

  /** The language, currency, tenant and admin user are created unless they
      were picked from existing rows (they carry an id); the admin gets the
      language's id first. English follows when the chosen language is not
      English and no English row exists. */
  function HeadSteps(s: WizardState, k: Keys): (r: seq<Action>) {
    (if s.language.id.None? then [CreateLanguage(s.language)] else [])
    + ((if s.currency.id.None? then [CreateCurrency(s.currency)] else [])
    + ((if s.tenant.id.None? then [CreateTenant(s.tenant)] else [])
    + ((if s.user.id.None? then [CreateUser(s.user.(languageId := Some(RefOf(s.language.id))))] else [])
    + (if s.language.languageCode != "en" && "en" !in k.languageCodes then [CreateLanguage(English)] else []))))
  }

  /** The VAT rates without an id, in order. */
  function VatSteps(rates: seq<VatRate>): (r: seq<Action>) {
    if rates == [] then []
    else
      var last := rates[|rates| - 1];
      VatSteps(rates[..|rates| - 1]) + (if last.id.None? then [CreateVatRate(last)] else [])
  }

  /** The payment types without an id, in order, each for the tenant. */
  function PaymentSteps(types: seq<PaymentType>, owner: Ref): (r: seq<Action>) {
    if types == [] then []
    else
      var last := types[|types| - 1];
      PaymentSteps(types[..|types| - 1], owner) + (if last.id.None? then [CreatePaymentType(last, owner)] else [])
  }

  /** The order-type loop so far: the creates, the values created, and the
      first value that is not an enum case, if one was met. */
  datatype OrderPlan = OrderPlan(creates: seq<Action>, made: set<string>, halt: Option<string>)

  /** One value of the order-type loop: a value that is not an enum case
      stops the loop; a value already present, in the database or created
      earlier in the loop, is skipped; any other value is created. */
  function OrderTypeStep(p: OrderPlan, value: string, existing: set<string>, cases: seq<string>, owner: Ref): (r: OrderPlan) {
    if p.halt.Some? then p
    else if value !in cases then p.(halt := Some(value))
    else if value in existing || value in p.made then p
    else OrderPlan(p.creates + [CreateOrderType(value, owner)], p.made + {value}, None)
  }

  /** The order-type loop over a list of values. */
  function OrderTypeSteps(values: seq<string>, existing: set<string>, cases: seq<string>, owner: Ref): (r: OrderPlan) {
    if values == [] then OrderPlan([], {}, None)
    else OrderTypeStep(OrderTypeSteps(values[..|values| - 1], existing, cases, owner), values[|values| - 1], existing, cases, owner)
  }

  /** The default price list and warehouse, each unless it exists. */
  function TailSteps(k: Keys): (r: seq<Action>) {
    (if DefaultPriceListCode !in k.priceListCodes then [CreateDefaultPriceList] else [])
    + (if DefaultWarehouseName !in k.warehouseNames then [CreateDefaultWarehouse] else [])
  }

  /** Everything finishInstallation attempts for the records s on a
      database with keys k. */
  function PlanFor(s: WizardState, k: Keys, cases: seq<string>): (r: Plan) {
    var o := OrderTypeSteps(s.orderTypes, k.orderTypes, cases, RefOf(s.tenant.id));
    Plan(HeadSteps(s, k) + VatSteps(s.vatRates) + PaymentSteps(s.paymentTypes, RefOf(s.tenant.id)) + o.creates
         + (if o.halt.None? then TailSteps(k) else []),
         o.halt)
  }

  /** Why the apply step stopped. */
  datatype Stop = Rejected(action: Action) | NotAnOrderType(value: string)

  /** The database the apply step leaves and why it stopped, if it did. */
  datatype Finished = Finished(view: DbView, stop: Option<Stop>)

  /** The apply step: run the plan; a rejected action stops it first,
      otherwise an unknown order-type value stops it after the creates
      before that value. */
  function Finish(s: WizardState, v: DbView, cases: seq<string>, accepts: (DbView, Action) -> bool): (r: Finished) {
    var p := PlanFor(s, v.keys, cases);
    var r := Run(v, p.creates, accepts);
    if r.rejected.Some? then Finished(r.view, Some(Rejected(r.rejected.value)))
    else if p.halt.Some? then Finished(r.view, Some(NotAnOrderType(p.halt.value)))
    else Finished(r.view, None)
  }

  /** How the apply step can end: having created the whole plan, stopped at
      one of the planned actions, or stopped at a collected order-type value
      that is not an enum case. */
  lemma FinishEnds(s: WizardState, v: DbView, cases: seq<string>, accepts: (DbView, Action) -> bool)
    ensures var f := Finish(s, v, cases, accepts);
      var p := PlanFor(s, v.keys, cases);
      && (f.stop.None? ==> f.view.created == v.created + p.creates)
      && (f.stop.Some? && f.stop.value.Rejected? ==> f.stop.value.action in p.creates)
      && (f.stop.Some? && f.stop.value.NotAnOrderType? ==>
            f.stop.value.value in s.orderTypes && f.stop.value.value !in cases)
  {
    var p := PlanFor(s, v.keys, cases);
    RunLog(v, p.creates, accepts);
    OrderTypeStepsExact(s.orderTypes, v.keys.orderTypes, cases, RefOf(s.tenant.id));
  }

  // ---------------------------------------------------------------------
  // What the plan creates

  /** The head creates the chosen language, currency, tenant and admin
      user when they carry no id, and English only when it is missing and
      not the chosen language. */
  lemma HeadMembers(s: WizardState, k: Keys)
    ensures forall a :: a in HeadSteps(s, k) <==>
      || (a == CreateLanguage(s.language) && s.language.id.None?)
      || (a == CreateCurrency(s.currency) && s.currency.id.None?)
      || (a == CreateTenant(s.tenant) && s.tenant.id.None?)
      || (a == CreateUser(s.user.(languageId := Some(RefOf(s.language.id)))) && s.user.id.None?)
      || (a == CreateLanguage(English) && s.language.languageCode != "en" && "en" !in k.languageCodes)
  {
  }

  /** The tail creates the price list and the warehouse, each when missing. */
  lemma TailMembers(k: Keys)
    ensures forall a :: a in TailSteps(k) <==>
      || (a == CreateDefaultPriceList && DefaultPriceListCode !in k.priceListCodes)
      || (a == CreateDefaultWarehouse && DefaultWarehouseName !in k.warehouseNames)
  {
  }

  /** An action of the plan comes from exactly one of its parts. */
  lemma PlanMembers(s: WizardState, k: Keys, cases: seq<string>)
    ensures var o := OrderTypeSteps(s.orderTypes, k.orderTypes, cases, RefOf(s.tenant.id));
      forall a :: a in PlanFor(s, k, cases).creates <==>
        || a in HeadSteps(s, k)
        || a in VatSteps(s.vatRates)
        || a in PaymentSteps(s.paymentTypes, RefOf(s.tenant.id))
        || a in o.creates
        || (o.halt.None? && a in TailSteps(k))
    ensures PlanFor(s, k, cases).halt == OrderTypeSteps(s.orderTypes, k.orderTypes, cases, RefOf(s.tenant.id)).halt
  {
  }

  /** A VAT rate is created exactly when it is one of the collected rates
      and has no id. */
  lemma {:induction false} VatStepsExact(rates: seq<VatRate>)
    ensures forall a :: a in VatSteps(rates) ==> a.CreateVatRate? && a.vatRate in rates && a.vatRate.id.None?
    ensures forall r :: r in rates && r.id.None? ==> CreateVatRate(r) in VatSteps(rates)
  {
    if rates != [] {
      var front := rates[..|rates| - 1];
      VatStepsExact(front);
      assert rates == front + [rates[|rates| - 1]];
    }
  }

  /** A payment type is created exactly when it is one of the collected
      types and has no id, and it always goes to the tenant. */
  lemma {:induction false} PaymentStepsExact(types: seq<PaymentType>, owner: Ref)
    ensures forall a :: a in PaymentSteps(types, owner) ==>
      a.CreatePaymentType? && a.paymentType in types && a.paymentType.id.None? && a.owner == owner
    ensures forall t :: t in types && t.id.None? ==> CreatePaymentType(t, owner) in PaymentSteps(types, owner)
  {
    if types != [] {
      var front := types[..|types| - 1];
      PaymentStepsExact(front, owner);
      assert types == front + [types[|types| - 1]];
    }
  }

  /** The order-type loop creates each enum value at most once, only values
      that are enum cases and absent from the database, and every such
      value that comes before the first unknown one. */
  lemma {:induction false} OrderTypeStepsExact(values: seq<string>, existing: set<string>, cases: seq<string>, owner: Ref)
    ensures var p := OrderTypeSteps(values, existing, cases, owner);
      && (forall a :: a in p.creates ==> a.CreateOrderType? && a.owner == owner)
      && (forall i, j :: 0 <= i < j < |p.creates| ==> p.creates[i].value != p.creates[j].value)
      && (forall i :: 0 <= i < |p.creates| ==> p.creates[i].value in p.made)
      && (forall m :: m in p.made ==> m in values && m in cases && m !in existing)
      && (p.halt.None? ==> forall m :: m in values && m !in existing ==> m in p.made)
      && (p.halt.Some? ==> p.halt.value in values && p.halt.value !in cases)
  {
    if values != [] {
      var front := values[..|values| - 1];
      var value := values[|values| - 1];
      OrderTypeStepsExact(front, existing, cases, owner);
      assert values == front + [value];
    }
  }

  /** With every value an enum case the loop runs to the end; the first
      value that is not a case is the one that stops it. */
  lemma {:induction false} OrderTypeHalt(values: seq<string>, existing: set<string>, cases: seq<string>, owner: Ref)
    ensures var p := OrderTypeSteps(values, existing, cases, owner);
      p.halt.None? <==> forall i :: 0 <= i < |values| ==> values[i] in cases
  {
    if values != [] {
      var front := values[..|values| - 1];
      OrderTypeHalt(front, existing, cases, owner);
      assert forall i :: 0 <= i < |front| ==> front[i] == values[i];
    }
  }

  /** The languages the plan creates: the chosen one unless it was picked
      from the existing rows, then English exactly when the chosen code is
      not "en" and no English row exists. */
  function LanguagesCreated(acts: seq<Action>): (r: seq<Language>) {
    if acts == [] then []
    else
      var a := acts[|acts| - 1];
      LanguagesCreated(acts[..|acts| - 1]) + (if a.CreateLanguage? then [a.language] else [])
  }

  lemma {:induction false} LanguagesCreatedAppend(a: seq<Action>, b: seq<Action>)
    ensures LanguagesCreated(a + b) == LanguagesCreated(a) + LanguagesCreated(b)
  {
    if b != [] {
      var front := b[..|b| - 1];
      assert (a + b)[..|a + b| - 1] == a + front;
      LanguagesCreatedAppend(a, front);
    } else {
      assert a + b == a;
    }
  }

  lemma {:induction false} NoLanguageInVat(rates: seq<VatRate>)
    ensures LanguagesCreated(VatSteps(rates)) == []
  {
    if rates != [] {
      var front := rates[..|rates| - 1];
      NoLanguageInVat(front);
      var last := rates[|rates| - 1];
      LanguagesCreatedAppend(VatSteps(front), if last.id.None? then [CreateVatRate(last)] else []);
    }
  }

  lemma {:induction false} NoLanguageInPayments(types: seq<PaymentType>, owner: Ref)
    ensures LanguagesCreated(PaymentSteps(types, owner)) == []
  {
    if types != [] {
      var front := types[..|types| - 1];
      NoLanguageInPayments(front, owner);
      var last := types[|types| - 1];
      LanguagesCreatedAppend(PaymentSteps(front, owner), if last.id.None? then [CreatePaymentType(last, owner)] else []);
    }
  }

  lemma {:induction false} NoLanguageInOrderTypes(acts: seq<Action>)
    requires forall a :: a in acts ==> a.CreateOrderType?
    ensures LanguagesCreated(acts) == []
  {
    if acts != [] {
      var front := acts[..|acts| - 1];
      assert forall a :: a in front ==> a in acts;
      assert acts[|acts| - 1] in acts;
      NoLanguageInOrderTypes(front);
    }
  }

  /** An optional action creates its language, if it is one. */
  lemma LanguagesOfOptional(c: bool, a: Action)
    ensures LanguagesCreated(if c then [a] else []) == if c && a.CreateLanguage? then [a.language] else []
  {
    assert [a][..0] == [];
  }

  /** Five runs of actions where only the first and the last create
      languages. */
  lemma LanguagesOfFive(l1: seq<Action>, c1: seq<Action>, t1: seq<Action>, u1: seq<Action>, e1: seq<Action>)
    requires LanguagesCreated(c1) == [] && LanguagesCreated(t1) == [] && LanguagesCreated(u1) == []
    ensures LanguagesCreated(l1 + (c1 + (t1 + (u1 + e1)))) == LanguagesCreated(l1) + LanguagesCreated(e1)
  {
    LanguagesCreatedAppend(u1, e1);
    LanguagesCreatedAppend(t1, u1 + e1);
    LanguagesCreatedAppend(c1, t1 + (u1 + e1));
    LanguagesCreatedAppend(l1, c1 + (t1 + (u1 + e1)));
  }

  lemma LanguagesInHead(s: WizardState, k: Keys)
    ensures LanguagesCreated(HeadSteps(s, k)) ==
      (if s.language.id.None? then [s.language] else [])
      + (if s.language.languageCode != "en" && "en" !in k.languageCodes then [English] else [])
  {
    var english := s.language.languageCode != "en" && "en" !in k.languageCodes;
    var u := CreateUser(s.user.(languageId := Some(RefOf(s.language.id))));
    LanguagesOfOptional(s.language.id.None?, CreateLanguage(s.language));
    LanguagesOfOptional(s.currency.id.None?, CreateCurrency(s.currency));
    LanguagesOfOptional(s.tenant.id.None?, CreateTenant(s.tenant));
    LanguagesOfOptional(s.user.id.None?, u);
    LanguagesOfOptional(english, CreateLanguage(English));
    LanguagesOfFive(if s.language.id.None? then [CreateLanguage(s.language)] else [],
                    if s.currency.id.None? then [CreateCurrency(s.currency)] else [],
                    if s.tenant.id.None? then [CreateTenant(s.tenant)] else [],
                    if s.user.id.None? then [u] else [],
                    if english then [CreateLanguage(English)] else []);
  }

  lemma NoLanguageInTail(k: Keys)
    ensures LanguagesCreated(TailSteps(k)) == []
  {
    var p1 := if DefaultPriceListCode !in k.priceListCodes then [CreateDefaultPriceList] else [];
    var w1 := if DefaultWarehouseName !in k.warehouseNames then [CreateDefaultWarehouse] else [];
    LanguagesCreatedAppend(p1, w1);
  }

  /** The languages a run creates: the chosen one unless it was picked from
      the existing rows, then English exactly when the chosen code is not
      "en" and no English row exists; nothing else creates a language. */
  lemma LanguagesPlanned(s: WizardState, k: Keys, cases: seq<string>)
    ensures LanguagesCreated(PlanFor(s, k, cases).creates) ==
      (if s.language.id.None? then [s.language] else [])
      + (if s.language.languageCode != "en" && "en" !in k.languageCodes then [English] else [])
  {
    var owner := RefOf(s.tenant.id);
    var o := OrderTypeSteps(s.orderTypes, k.orderTypes, cases, owner);
    var head := HeadSteps(s, k);
    var vat := VatSteps(s.vatRates);
    var pay := PaymentSteps(s.paymentTypes, owner);
    var tail := if o.halt.None? then TailSteps(k) else [];
    assert PlanFor(s, k, cases).creates == head + vat + pay + o.creates + tail;
    LanguagesInHead(s, k);
    NoLanguageInVat(s.vatRates);
    NoLanguageInPayments(s.paymentTypes, owner);
    OrderTypeStepsExact(s.orderTypes, k.orderTypes, cases, owner);
    NoLanguageInOrderTypes(o.creates);
    NoLanguageInTail(k);
    LanguagesCreatedAppend(head, vat);
    LanguagesCreatedAppend(head + vat, pay);
    LanguagesCreatedAppend(head + vat + pay, o.creates);
    LanguagesCreatedAppend(head + vat + pay + o.creates, tail);
  }

  /** An action that creates a language, currency, tenant, user, VAT rate
      or payment type creates one the wizard collected without an id (or
      English). */
  predicate CreatesCollected(s: WizardState, a: Action) {
    && (a.CreateLanguage? ==> a.language.id.None? && (a.language == s.language || a.language == English))
    && (a.CreateCurrency? ==> a.currency == s.currency && s.currency.id.None?)
    && (a.CreateTenant? ==> a.tenant == s.tenant && s.tenant.id.None?)
    && (a.CreateUser? ==> s.user.id.None? && a.user == s.user.(languageId := Some(RefOf(s.language.id))))
    && (a.CreateVatRate? ==> a.vatRate in s.vatRates && a.vatRate.id.None?)
    && (a.CreatePaymentType? ==> a.paymentType in s.paymentTypes && a.paymentType.id.None?)
  }

  /** Records picked from the existing rows are never created again: every
      language, currency, tenant and user the plan creates is one the
      wizard collected without an id (or English), and so is every VAT rate
      and payment type. */
  lemma NothingWithIdCreated(s: WizardState, k: Keys, cases: seq<string>)
    ensures forall a :: a in PlanFor(s, k, cases).creates ==> CreatesCollected(s, a)
  {
    var owner := RefOf(s.tenant.id);
    var o := OrderTypeSteps(s.orderTypes, k.orderTypes, cases, owner);
    PlanMembers(s, k, cases);
    HeadMembers(s, k);
    TailMembers(k);
    VatStepsExact(s.vatRates);
    PaymentStepsExact(s.paymentTypes, owner);
    OrderTypeStepsExact(s.orderTypes, k.orderTypes, cases, owner);
    forall a | a in PlanFor(s, k, cases).creates
      ensures CreatesCollected(s, a)
    {
      if a in HeadSteps(s, k) {
      } else if a in VatSteps(s.vatRates) {
      } else if a in PaymentSteps(s.paymentTypes, owner) {
      } else if a in o.creates {
      } else {
        assert a in TailSteps(k);
      }
    }
  }

  /** Every VAT rate and payment type collected without an id is created
      (the VAT and payment loops come before any order type can stop the
      step). */
  lemma AllNewRecordsPlanned(s: WizardState, k: Keys, cases: seq<string>)
    ensures var acts := PlanFor(s, k, cases).creates;
      && (forall r :: r in s.vatRates && r.id.None? ==> CreateVatRate(r) in acts)
      && (forall t :: t in s.paymentTypes && t.id.None? ==> CreatePaymentType(t, RefOf(s.tenant.id)) in acts)
  {
    PlanMembers(s, k, cases);
    VatStepsExact(s.vatRates);
    PaymentStepsExact(s.paymentTypes, RefOf(s.tenant.id));
  }

  /** The default price list and warehouse are each created exactly when
      they are missing and no unknown order type stopped the step first. */
  lemma DefaultsPlanned(s: WizardState, k: Keys, cases: seq<string>)
    ensures var p := PlanFor(s, k, cases);
      && (CreateDefaultPriceList in p.creates <==> DefaultPriceListCode !in k.priceListCodes && p.halt.None?)
      && (CreateDefaultWarehouse in p.creates <==> DefaultWarehouseName !in k.warehouseNames && p.halt.None?)
  {
    var owner := RefOf(s.tenant.id);
    PlanMembers(s, k, cases);
    HeadMembers(s, k);
    TailMembers(k);
    VatStepsExact(s.vatRates);
    PaymentStepsExact(s.paymentTypes, owner);
    OrderTypeStepsExact(s.orderTypes, k.orderTypes, cases, owner);
  }

  /** Order types: each created at most once, only enum cases missing from
      the database, and all of the missing ones when every value is a
      case. */
  lemma OrderTypesPlanned(s: WizardState, k: Keys, cases: seq<string>)
    ensures var p := PlanFor(s, k, cases);
      && (forall a :: a in p.creates && a.CreateOrderType? ==>
            a.value in s.orderTypes && a.value in cases && a.value !in k.orderTypes && a.owner == RefOf(s.tenant.id))
      && (p.halt.None? <==> forall i :: 0 <= i < |s.orderTypes| ==> s.orderTypes[i] in cases)
      && (p.halt.None? ==> forall m :: m in s.orderTypes && m !in k.orderTypes ==> CreateOrderType(m, RefOf(s.tenant.id)) in p.creates)
  {
    var owner := RefOf(s.tenant.id);
    var o := OrderTypeSteps(s.orderTypes, k.orderTypes, cases, owner);
    PlanMembers(s, k, cases);
    HeadMembers(s, k);
    TailMembers(k);
    VatStepsExact(s.vatRates);
    PaymentStepsExact(s.paymentTypes, owner);
    OrderTypeStepsExact(s.orderTypes, k.orderTypes, cases, owner);
    OrderTypeHalt(s.orderTypes, k.orderTypes, cases, owner);
    if o.halt.None? {
      forall m | m in s.orderTypes && m !in k.orderTypes
        ensures CreateOrderType(m, owner) in o.creates
      {
        OrderTypeMadeCreated(s.orderTypes, k.orderTypes, cases, owner, m);
      }
    }
  }

  /** A value the loop made is in its creates. */
  lemma {:induction false} OrderTypeMadeCreated(values: seq<string>, existing: set<string>, cases: seq<string>, owner: Ref, m: string)
    requires m in OrderTypeSteps(values, existing, cases, owner).made
    ensures CreateOrderType(m, owner) in OrderTypeSteps(values, existing, cases, owner).creates
  {
    var front := values[..|values| - 1];
    var p := OrderTypeSteps(front, existing, cases, owner);
    if m in p.made {
      OrderTypeMadeCreated(front, existing, cases, owner, m);
    }
  }

  // ---------------------------------------------------------------------
  // Runs stopped part-way

  /** One more action after a run. */
  lemma RunSnoc(v: DbView, before: seq<Action>, a: Action, accepts: (DbView, Action) -> bool)
    ensures var r := Run(v, before, accepts);
      Run(v, before + [a], accepts) ==
        if r.rejected.Some? then r
        else if accepts(r.view, a) then RunResult(After(r.view, a), None)
        else RunResult(r.view, Some(a))
  {
    assert (before + [a])[..|before|] == before;
  }

  lemma VatStepsSnoc(rates: seq<VatRate>, i: nat)
    requires i < |rates|
    ensures VatSteps(rates[..i + 1]) ==
      VatSteps(rates[..i]) + (if rates[i].id.None? then [CreateVatRate(rates[i])] else [])
  {
    assert rates[..i + 1][..i] == rates[..i];
  }

  lemma PaymentStepsSnoc(types: seq<PaymentType>, owner: Ref, i: nat)
    requires i < |types|
    ensures PaymentSteps(types[..i + 1], owner) ==
      PaymentSteps(types[..i], owner) + (if types[i].id.None? then [CreatePaymentType(types[i], owner)] else [])
  {
    assert types[..i + 1][..i] == types[..i];
  }

  lemma OrderTypeSnoc(values: seq<string>, existing: set<string>, cases: seq<string>, owner: Ref, i: nat)
    requires i < |values|
    ensures OrderTypeSteps(values[..i + 1], existing, cases, owner) ==
      OrderTypeStep(OrderTypeSteps(values[..i], existing, cases, owner), values[i], existing, cases, owner)
  {
    assert values[..i + 1][..i] == values[..i];
  }

  /** A prefix of a list stays a prefix of the list extended, and a
      prefix of a prefix is a prefix. */
  lemma PrefixWithin(d: seq<Action>, x: seq<Action>, y: seq<Action>, all: seq<Action>)
    requires x <= y && d + y <= all
    ensures d + x <= all
  {
    assert d + x == (d + y)[..|d + x|];
  }

  /** The next planned action a, with rest after it: the actions done so
      far followed by a still start the plan. */
  lemma StepWithin(done: seq<Action>, a: Action, rest: seq<Action>, head: seq<Action>, all: seq<Action>)
    requires done + ([a] + rest) == head && head <= all
    ensures done + [a] <= all && (done + [a]) + rest == head
  {
    assert done + ([a] + rest) == (done + [a]) + rest;
  }

  /** When the action after a completed run is rejected, any longer list
      that starts with them stops there, with the rows created before it. */
  lemma RunStops(v: DbView, done: seq<Action>, a: Action, all: seq<Action>, accepts: (DbView, Action) -> bool)
    requires done + [a] <= all
    requires Run(v, done, accepts).rejected.None? && !accepts(Run(v, done, accepts).view, a)
    ensures Run(v, all, accepts) == RunResult(Run(v, done, accepts).view, Some(a))
  {
    var first := done + [a];
    assert all == first + all[|first|..];
    RunAppend(v, first, all[|first|..], accepts);
    assert first[..|first| - 1] == done;
  }
  /** Only the language codes may differ between k and k'. */
  predicate OtherKeysKept(k: Keys, k': Keys) {
    k'.orderTypes == k.orderTypes && k'.priceListCodes == k.priceListCodes && k'.warehouseNames == k.warehouseNames
  }

  /** The run of the plan all stops at action a, which the database in
      state view rejects after every action before it succeeded. */
  ghost predicate StoppedAt(v0: DbView, all: seq<Action>, accepts: (DbView, Action) -> bool, view: DbView, a: Action) {
    exists n :: 0 <= n < |all| && all[n] == a && Run(v0, all[..n], accepts) == RunResult(view, None) && !accepts(view, a)
  }

  /** Such a run ends with the rows created before a and a rejected. */
  lemma StoppedRun(v0: DbView, all: seq<Action>, accepts: (DbView, Action) -> bool, view: DbView, a: Action)
    requires StoppedAt(v0, all, accepts, view, a)
    ensures Run(v0, all, accepts) == RunResult(view, Some(a))
  {
    var n :| 0 <= n < |all| && all[n] == a && Run(v0, all[..n], accepts) == RunResult(view, None) && !accepts(view, a);
    assert all[..n] + [a] == all[..n + 1];
    RunStops(v0, all[..n], a, all, accepts);
  }

  /** What the apply step ends with, from how far its plan ran: to the end,
      to a rejected action, or to the end of the creates before an unknown
      order-type value. */
  lemma FinishFrom(s: WizardState, v: DbView, cases: seq<string>, accepts: (DbView, Action) -> bool,
                   view: DbView, stop: Option<Stop>)
    requires var p := PlanFor(s, v.keys, cases);
      match stop
      case None => p.halt.None? && Run(v, p.creates, accepts) == RunResult(view, None)
      case Some(Rejected(a)) => StoppedAt(v, p.creates, accepts, view, a)
      case Some(NotAnOrderType(h)) => p.halt == Some(h) && Run(v, p.creates, accepts) == RunResult(view, None)
    ensures Finish(s, v, cases, accepts) == Finished(view, stop)
  {
    if stop.Some? && stop.value.Rejected? {
      StoppedRun(v, PlanFor(s, v.keys, cases).creates, accepts, view, stop.value.action);
    }
  }

  /** The VAT steps for a prefix of the rates start the VAT steps for all
      of them. */
  lemma {:induction false} VatStepsPrefix(rates: seq<VatRate>, j: nat)
    requires j <= |rates|
    ensures VatSteps(rates[..j]) <= VatSteps(rates)
    decreases |rates| - j
  {
    if j < |rates| {
      VatStepsPrefix(rates, j + 1);
      assert rates[..j + 1][..j] == rates[..j];
    } else {
      assert rates[..j] == rates;
    }
  }

  lemma {:induction false} PaymentStepsPrefix(types: seq<PaymentType>, owner: Ref, j: nat)
    requires j <= |types|
    ensures PaymentSteps(types[..j], owner) <= PaymentSteps(types, owner)
    decreases |types| - j
  {
    if j < |types| {
      PaymentStepsPrefix(types, owner, j + 1);
      assert types[..j + 1][..j] == types[..j];
    } else {
      assert types[..j] == types;
    }
  }

  /** The order-type loop over a prefix of the values starts the loop over
      all of them, and once it has stopped, the later values change
      nothing. */
  lemma {:induction false} OrderTypePrefix(values: seq<string>, existing: set<string>, cases: seq<string>, owner: Ref, j: nat)
    requires j <= |values|
    ensures var p := OrderTypeSteps(values[..j], existing, cases, owner);
      var q := OrderTypeSteps(values, existing, cases, owner);
      p.creates <= q.creates && (p.halt.Some? ==> q == p)
    decreases |values| - j
  {
    if j < |values| {
      OrderTypePrefix(values, existing, cases, owner, j + 1);
      assert values[..j + 1][..j] == values[..j];
    } else {
      assert values[..j] == values;
    }
  }

  // ---------------------------------------------------------------------
  // The database, updated in place

  /** The database connection: the rows and keys the apply step sees, the
      state saved when the transaction began, and the host validation,
      which decides whether a Create* action succeeds. */
  class Store {
    var view: DbView
    var saved: DbView
    const accepts: (DbView, Action) -> bool

    constructor(initial: DbView, accepts: (DbView, Action) -> bool)
      ensures view == initial && saved == initial && this.accepts == accepts
    {
      view := initial;
      saved := initial;
      this.accepts := accepts;
    }

    /** One Create*::make(...)->validate()->execute(): the row is added when
        the host validation accepts it, and nothing changes otherwise. */
    method Create(a: Action) returns (ok: bool)
      modifies this
      ensures ok == accepts(old(view), a)
      ensures view == (if ok then After(old(view), a) else old(view))
      ensures saved == old(saved)
    {
      ok := accepts(view, a);
      if ok {
        view := After(view, a);
      }
    }

    /** One Create* call inside a run: after the actions done, which all
        succeeded, the action a is attempted. If it is accepted the run is
        one action longer; if not, every plan all that continues done with
        a stops here. */
    method Attempt(a: Action, ghost v0: DbView, ghost done: seq<Action>, ghost all: seq<Action>) returns (ok: bool)
      requires Run(v0, done, accepts) == RunResult(view, None)
      requires done + [a] <= all
      modifies this
      ensures ok ==> view == After(old(view), a) && Run(v0, done + [a], accepts) == RunResult(view, None)
      ensures !ok ==> view == old(view) && StoppedAt(v0, all, accepts, view, a)
      ensures saved == old(saved)
    {
      RunSnoc(v0, done, a, accepts);
      ok := Create(a);
      if !ok {
        assert all[..|done|] == done && all[|done|] == a;
      }
    }

    /** A planned step that is present only when create holds: the actions
        done, the optional a, then rest make up the plan head, which starts
        the whole plan all. */
    method AttemptIf(create: bool, a: Action, ghost v0: DbView, ghost done: seq<Action>, ghost rest: seq<Action>,
                     ghost head: seq<Action>, ghost all: seq<Action>) returns (ok: bool, ghost d: seq<Action>)
      requires Run(v0, done, accepts) == RunResult(view, None)
      requires done + ((if create then [a] else []) + rest) == head && head <= all
      modifies this
      ensures ok ==> d + rest == head && Run(v0, d, accepts) == RunResult(view, None)
      ensures !create ==> ok && view == old(view)
      ensures !ok ==> create && view == old(view) && StoppedAt(v0, all, accepts, view, a)
      ensures (KeysKept(a) || a.CreateLanguage?) ==> OtherKeysKept(old(view.keys), view.keys)
      ensures KeysKept(a) ==> view.keys.languageCodes == old(view.keys.languageCodes)
      ensures a.CreateLanguage? ==>
        old(view.keys.languageCodes) <= view.keys.languageCodes <= old(view.keys.languageCodes) + {a.language.languageCode}
      ensures saved == old(saved)
    {
      ok, d := true, done;
      if create {
        StepWithin(done, a, rest, head, all);
        ok := Attempt(a, v0, done, all);
        d := done + [a];
      } else {
        assert done + ([] + rest) == done + rest;
      }
    }

    /** DB::beginTransaction(). */
    method BeginTransaction()
      modifies this
      ensures view == old(view) && saved == old(view)
    {
      saved := view;
    }

    /** DB::commit(): the current state becomes the durable one. */
    method Commit()
      modifies this
      ensures view == old(view) && saved == old(view)
    {
      saved := view;
    }

    /** DB::rollBack(): back to the state of the transaction's start. */
    method RollBack()
      modifies this
      ensures view == old(saved) && saved == old(saved)
    {
      view := saved;
    }
  }
}

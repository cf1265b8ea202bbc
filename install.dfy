/** The `flux:install` command: it collects the records (from the options
    with --no-interaction, from the prompts otherwise), then creates them in
    one transaction, and its exit code says whether the installation
    completed. */
module Install {
  import opened Wrappers
  import opened Text
  import opened Numeric
  import opened Records
  import opened Options
  import opened Apply

  // ---------------------------------------------------------------------
  // The order-type prompt

  /** The enum cases with no order type yet, in declaration order: the
      options the order-type prompt offers. */
  function MissingCases(cases: seq<string>, existing: set<string>): (r: seq<string>) {
    if cases == [] then []
    else
      var c := cases[|cases| - 1];
      MissingCases(cases[..|cases| - 1], existing) + (if c in existing then [] else [c])
  }

  /** The options are exactly the cases that do not exist yet, none twice
      when the cases are distinct. */
  lemma {:induction false} MissingCasesExact(cases: seq<string>, existing: set<string>)
    ensures forall x :: x in MissingCases(cases, existing) <==> x in cases && x !in existing
    ensures |MissingCases(cases, existing)| <= |cases|
  {
    if cases != [] {
      var front := cases[..|cases| - 1];
      MissingCasesExact(front, existing);
      assert cases == front + [cases[|cases| - 1]];
    }
  }

  /** There is nothing to offer exactly when every case already exists. */
  lemma MissingCasesEmpty(cases: seq<string>, existing: set<string>)
    ensures MissingCases(cases, existing) == [] <==> forall i :: 0 <= i < |cases| ==> cases[i] in existing
  {
    MissingCasesExact(cases, existing);
    if MissingCases(cases, existing) != [] {
      var x := MissingCases(cases, existing)[0];
      assert x in MissingCases(cases, existing);
    }
  }

  /** What the required multiselect can return: when there are options, a
      nonempty choice among them. */
  predicate ValidSelection(options: seq<string>, selected: seq<string>) {
    options != [] ==> selected != [] && forall x :: x in selected ==> x in options
  }

  /** The order types the interactive setup keeps: none when every case
      exists, the selection otherwise. */
  function ChosenOrderTypes(options: seq<string>, selected: seq<string>): (r: seq<string>) {
    if options == [] then [] else selected
  }

  // ---------------------------------------------------------------------
  // The VAT prompt

  /** One rate typed at the VAT prompt: its name and its percentage text. */
  datatype VatEntry = VatEntry(name: string, percentage: string)

  /** The answers to the VAT prompt: keep the existing rates as they are,
      or type new ones, noting whether any rate existed before. */
  datatype VatAnswers =
    | KeepExisting(rows: seq<VatRate>)
    | Typed(entries: seq<VatEntry>, noneExisting: bool)

  /** The loop of setupVatRates() over the typed rates: each becomes a rate
      of percentage / 100, the default when it is the first one added and
      no rate existed; the first percentage bcdiv() refuses stops it. */
  function TypedRates(entries: seq<VatEntry>, noneExisting: bool): (r: Result<seq<VatRate>, SetupError>)
    ensures r.Success? ==> |r.value| == |entries|
    ensures r.Failure? ==> r.error.MalformedRate?
  {
    if entries == [] then Success([])
    else
      var last := entries[|entries| - 1];
      match TypedRates(entries[..|entries| - 1], noneExisting)
      case Failure(e) => Failure(e)
      case Success(front) =>
        match RateFromPercent(last.percentage)
        case None => Failure(MalformedRate(last.percentage))
        case Some(rate) => Success(front + [VatRate(None, last.name, rate, noneExisting && front == [])])
  }

  /** The loop one entry further: it succeeds when the entries before the
      last succeed and the last percentage is a number. */
  lemma TypedRatesStep(entries: seq<VatEntry>, noneExisting: bool)
    requires entries != []
    ensures var n := |entries| - 1;
      TypedRates(entries, noneExisting).Success? <==>
        TypedRates(entries[..n], noneExisting).Success? && RateFromPercent(entries[n].percentage).Some?
  {
  }

  /** The typed rates are read exactly when every percentage is a number. */
  lemma {:induction false} TypedRatesSucceed(entries: seq<VatEntry>, noneExisting: bool)
    ensures TypedRates(entries, noneExisting).Success? <==>
      forall i :: 0 <= i < |entries| ==> RateFromPercent(entries[i].percentage).Some?
  {
    if entries != [] {
      var n := |entries| - 1;
      var front := entries[..n];
      TypedRatesSucceed(front, noneExisting);
      TypedRatesStep(entries, noneExisting);
      assert forall i :: 0 <= i < n ==> front[i] == entries[i];
    }
  }

  /** A failure names the first percentage that is not a number. */
  lemma {:induction false} TypedRatesFailure(entries: seq<VatEntry>, noneExisting: bool)
    requires TypedRates(entries, noneExisting).Failure?
    ensures exists i :: (0 <= i < |entries| && RateFromPercent(entries[i].percentage).None?
                         && TypedRates(entries, noneExisting).error == MalformedRate(entries[i].percentage)
                         && forall j :: 0 <= j < i ==> RateFromPercent(entries[j].percentage).Some?)
  {
    var n := |entries| - 1;
    var front := entries[..n];
    assert forall i :: 0 <= i < n ==> front[i] == entries[i];
    if TypedRates(front, noneExisting).Failure? {
      TypedRatesFailure(front, noneExisting);
      var i :| 0 <= i < n && RateFromPercent(front[i].percentage).None?
               && TypedRates(front, noneExisting).error == MalformedRate(front[i].percentage)
               && forall j :: 0 <= j < i ==> RateFromPercent(front[j].percentage).Some?;
      assert entries[i] == front[i];
    } else {
      TypedRatesSucceed(front, noneExisting);
      assert RateFromPercent(entries[n].percentage).None?;
    }
  }

  /** On success rate k is entry k read, without an id, and only the first
      is the default, and only when no rate existed. */
  lemma {:induction false} TypedRatesContents(entries: seq<VatEntry>, noneExisting: bool)
    requires TypedRates(entries, noneExisting).Success?
    ensures forall k :: 0 <= k < |entries| ==>
      var r := TypedRates(entries, noneExisting).value[k];
      && r.id.None? && r.name == entries[k].name && RateFromPercent(entries[k].percentage) == Some(r.rate)
      && (r.isDefault <==> noneExisting && k == 0)
  {
    if entries != [] {
      var n := |entries| - 1;
      var front := entries[..n];
      TypedRatesContents(front, noneExisting);
      assert forall i :: 0 <= i < n ==> front[i] == entries[i];
      var rate := RateFromPercent(entries[n].percentage);
      assert rate.Some?;
      var rs := TypedRates(entries, noneExisting).value;
      assert rs == TypedRates(front, noneExisting).value + [VatRate(None, entries[n].name, rate.value, noneExisting && n == 0)];
    }
  }

  /** Once a typed percentage has been refused, the later entries change
      nothing. */
  lemma {:induction false} TypedRatesStop(entries: seq<VatEntry>, j: nat, noneExisting: bool)
    requires j <= |entries| && TypedRates(entries[..j], noneExisting).Failure?
    ensures TypedRates(entries, noneExisting) == TypedRates(entries[..j], noneExisting)
    decreases |entries| - j
  {
    if j < |entries| {
      assert entries[..j + 1][..j] == entries[..j];
      TypedRatesStop(entries, j + 1, noneExisting);
    } else {
      assert entries[..j] == entries;
    }
  }

  /** The VAT rates the prompt yields, or the bcdiv() failure. */
  function VatFromAnswers(vat: VatAnswers): (r: Result<seq<VatRate>, SetupError>)
    ensures vat.KeepExisting? ==> r == Success(vat.rows)
    ensures r.Failure? ==> vat.Typed? && r.error.MalformedRate?
  {
    match vat
    case KeepExisting(rows) => Success(rows)
    case Typed(entries, noneExisting) =>
      TypedRates(entries, noneExisting)
  }

  // ---------------------------------------------------------------------
  // The command as a whole

  /** How the records are collected: from the options, or from the answers
      to the prompts; the answers' vatRates and orderTypes are replaced by
      what the VAT prompt and the order-type selection give. */
  datatype Input =
    | NonInteractive(cmd: CommandLine)
    | Interactive(answers: WizardState, vat: VatAnswers, selected: seq<string>)

  /** The records a run collects, or why the non-interactive setup stops. */
  function Collect(input: Input, existing: set<string>, cases: seq<string>): (r: Result<WizardState, SetupError>) {
    match input
    case NonInteractive(cmd) => DataFromOptions(cmd, cases)
    case Interactive(answers, vat, selected) =>
      match VatFromAnswers(vat)
      case Failure(e) => Failure(e)
      case Success(rates) =>
        Success(answers.(vatRates := rates, orderTypes := ChosenOrderTypes(MissingCases(cases, existing), selected)))
  }

  /** How a run of the command ends. */
  datatype Outcome =
    | AlreadyInstalled             // flux.install_done is set
    | MissingOption(field: string) // a required option is missing
    | UnreadableRate(text: string) // bcdiv() threw on a VAT percentage
    | UnknownOrderType(value: string) // OrderTypeEnum::from() threw
    | InstallFailed(action: Action) // a Create* action failed; rolled back
    | Completed

  /** The outcome and the database a run leaves. */
  datatype Ending = Ending(outcome: Outcome, view: DbView)

  /** A run of the command on the rows v the apply step reads and writes.
      Only a completed run leaves such rows behind: a failed action rolls
      the transaction back, and the errors thrown outside the caught
      Exception class end the command with the transaction uncommitted.
      The migrations and initial commands, which write before the
      transaction, are not part of v. */
  function Install(installDone: bool, input: Input, v: DbView, cases: seq<string>,
                   accepts: (DbView, Action) -> bool): (r: Ending)
  {
    if installDone then Ending(AlreadyInstalled, v)
    else
      match Collect(input, v.keys.orderTypes, cases)
      case Failure(MissingField(f)) => Ending(MissingOption(f), v)
      case Failure(MalformedRate(t)) => Ending(UnreadableRate(t), v)
      case Success(s) =>
        var f := Finish(s, v, cases, accepts);
        match f.stop
        case None => Ending(Completed, f.view)
        case Some(Rejected(a)) => Ending(InstallFailed(a), v)
        case Some(NotAnOrderType(x)) => Ending(UnknownOrderType(x), v)
  }

  /** All or nothing: a completed run has created exactly the planned rows,
      in order; any other ending leaves the rows the apply step reads and
      writes as they were. A failed
      action is one of the planned ones, and an unknown order type is one
      of the collected values that is not an enum case. */
  lemma AllOrNothing(installDone: bool, input: Input, v: DbView, cases: seq<string>,
                     accepts: (DbView, Action) -> bool)
    ensures var e := Install(installDone, input, v, cases, accepts);
      var c := Collect(input, v.keys.orderTypes, cases);
      && (!e.outcome.Completed? ==> e.view == v)
      && (e.outcome.Completed? ==>
            !installDone && c.Success? && e.view.created == v.created + PlanFor(c.value, v.keys, cases).creates)
      && (e.outcome.InstallFailed? ==> c.Success? && e.outcome.action in PlanFor(c.value, v.keys, cases).creates)
      && (e.outcome.UnknownOrderType? ==> c.Success? && e.outcome.value in c.value.orderTypes
                                          && e.outcome.value !in cases)
  {
    var c := Collect(input, v.keys.orderTypes, cases);
    if !installDone && c.Success? {
      FinishEnds(c.value, v, cases, accepts);
    }
  }

  /** A run that finds the installation done changes nothing. */
  lemma InstalledIsFinal(input: Input, v: DbView, cases: seq<string>, accepts: (DbView, Action) -> bool)
    ensures Install(true, input, v, cases, accepts) == Ending(AlreadyInstalled, v)
  {
  }

  /** The interactive setup offers only enum cases, so its order types never
      stop the apply step, and it never stops on an option. */
  lemma InteractiveOrderTypesKnown(answers: WizardState, vat: VatAnswers, selected: seq<string>, v: DbView,
                                   cases: seq<string>, accepts: (DbView, Action) -> bool)
    requires ValidSelection(MissingCases(cases, v.keys.orderTypes), selected)
    ensures var e := Install(false, Interactive(answers, vat, selected), v, cases, accepts);
      !e.outcome.UnknownOrderType? && !e.outcome.MissingOption?
  {
    var c := Collect(Interactive(answers, vat, selected), v.keys.orderTypes, cases);
    if c.Success? {
      MissingCasesExact(cases, v.keys.orderTypes);
      OrderTypeHalt(c.value.orderTypes, v.keys.orderTypes, cases, RefOf(c.value.tenant.id));
    }
  }

  /** An interactive run stops on a VAT percentage exactly when new rates
      were typed and one of the percentages is not a number; it names the
      first such percentage and writes nothing. */
  lemma InteractiveUnreadableRate(answers: WizardState, vat: VatAnswers, selected: seq<string>, v: DbView,
                                  cases: seq<string>, accepts: (DbView, Action) -> bool)
    ensures var e := Install(false, Interactive(answers, vat, selected), v, cases, accepts);
      e.outcome.UnreadableRate? <==>
        vat.Typed? && exists i :: 0 <= i < |vat.entries| && RateFromPercent(vat.entries[i].percentage).None?
    ensures var e := Install(false, Interactive(answers, vat, selected), v, cases, accepts);
      e.outcome.UnreadableRate? ==>
        && e.view == v
        && exists i :: (0 <= i < |vat.entries|
                        && e.outcome.text == vat.entries[i].percentage
                        && RateFromPercent(vat.entries[i].percentage).None?
                        && forall j :: 0 <= j < i ==> RateFromPercent(vat.entries[j].percentage).Some?)
  {
    if vat.Typed? {
      TypedRatesSucceed(vat.entries, vat.noneExisting);
      if TypedRates(vat.entries, vat.noneExisting).Failure? {
        TypedRatesFailure(vat.entries, vat.noneExisting);
      }
    }
  }

  /** Without --order-types every enum case is used, so the apply step
      never stops on an unknown value. */
  lemma DefaultOrderTypesKnown(cmd: CommandLine, v: DbView, cases: seq<string>, accepts: (DbView, Action) -> bool)
    requires cmd.orderTypes == []
    ensures !Install(false, NonInteractive(cmd), v, cases, accepts).outcome.UnknownOrderType?
  {
    var c := DataFromOptions(cmd, cases);
    if c.Success? {
      OrderTypeHalt(cases, v.keys.orderTypes, cases, RefOf(c.value.tenant.id));
    }
  }

  // ---------------------------------------------------------------------
  // The command object

  /** The command object: the records collected so far, kept in fields the
      setup steps assign and the apply step reads; cases are the
      OrderTypeEnum values in declaration order. */
  class Installer {
    var languageData: Language
    var currencyData: Currency
    var tenantData: Tenant
    var vatRates: seq<VatRate>
    var paymentTypes: seq<PaymentType>
    var orderTypes: seq<string>
    var userData: AdminUser
    const cases: seq<string>

    function State(): (r: WizardState)
      reads this
    {
      WizardState(languageData, currencyData, tenantData, vatRates, paymentTypes, orderTypes, userData)
    }

    /** A fresh command: its VAT and payment lists are still empty. */
    predicate Pristine()
      reads this
    {
      vatRates == [] && paymentTypes == []
    }

    constructor(cases: seq<string>)
      ensures Pristine() && orderTypes == [] && this.cases == cases
    {
      languageData := Language(None, "", "", "");
      currencyData := Currency(None, "", "", "", false);
      tenantData := Tenant(None, "", "", "", None, None, None, None, false);
      vatRates := [];
      paymentTypes := [];
      orderTypes := [];
      userData := AdminUser(None, "", "", "", None, None, None, None, None);
      this.cases := cases;
    }

    /** setupDataFromOptions(): stops on the first missing required option or
        on an unreadable VAT percentage; otherwise sets the records from the
        options, appending the VAT rates and payment types to the lists. */
    method SetupDataFromOptions(cmd: CommandLine) returns (error: Option<SetupError>)
      modifies this
      ensures var d := DataFromOptions(cmd, cases);
        && (error.Some? <==> d.Failure?)
        && (error.Some? ==> error.value == d.error)
        && (error.None? ==> State() == d.value.(vatRates := old(vatRates) + d.value.vatRates,
                                               paymentTypes := old(paymentTypes) + d.value.paymentTypes))
    {
      var missing := FirstMissing(cmd);
      if missing.Some? {
        DataFromMissingOption(cmd, cases);
        return Some(MissingField(missing.value));
      }
      error := SetRecords(cmd);
      if error.Some? {
        DataFromUnreadVat(cmd, cases);
      } else {
        DataFromReadOptions(cmd, cases, VatRatesFromOption(Lookup(cmd, "vat-rates")).value);
      }
    }

    /** The assignments of setupDataFromOptions() once the required options
        are present: each field from its options, in the source's order up
        to the VAT rates, which can stop it. */
    method SetRecords(cmd: CommandLine) returns (error: Option<SetupError>)
      modifies this
      ensures var r := VatRatesFromOption(Lookup(cmd, "vat-rates"));
        && (error.Some? <==> r.Failure?)
        && (error.Some? ==> error.value == r.error)
        && (error.None? ==>
              State() == WizardState(LanguageFromOptions(cmd), CurrencyFromOptions(cmd), TenantFromOptions(cmd),
                                     old(vatRates) + r.value, old(paymentTypes) + PaymentTypesFromOption(cmd),
                                     OrderTypesFromOption(cmd.orderTypes, cases), UserFromOptions(cmd)))
    {
      languageData := LanguageFromOptions(cmd);
      currencyData := CurrencyFromOptions(cmd);
      tenantData := TenantFromOptions(cmd);
      error := AppendVatRates(cmd);
      if error.Some? {
        return;
      }
      // setupDataFromOptions() appends the payment types before it sets the
      // order types and the admin user; here the order differs, which is
      // harmless: the three are independent fields and none of these steps
      // can fail.
      orderTypes := OrderTypesFromOption(cmd.orderTypes, cases);
      userData := UserFromOptions(cmd);
      AppendPaymentTypes(cmd);
    }

    /** The required-option check: the first required option that is falsy,
        in list order, if any. */
    method FirstMissing(cmd: CommandLine) returns (missing: Option<string>)
      ensures missing.None? <==> forall f :: f in RequiredFields ==> Present(cmd, f)
      ensures missing.None? ==> MissingIndex(cmd, RequiredFields) == |RequiredFields|
      ensures missing.Some? ==> missing.value == RequiredFields[MissingIndex(cmd, RequiredFields)]
                                && !Present(cmd, missing.value)
    {
      var i := 0;
      while i < |RequiredFields|
        invariant 0 <= i <= |RequiredFields|
        invariant forall k :: 0 <= k < i ==> Present(cmd, RequiredFields[k])
      {
        if !Present(cmd, RequiredFields[i]) {
          assert MissingIndex(cmd, RequiredFields) == i;
          return Some(RequiredFields[i]);
        }
        i := i + 1;
      }
      return None;
    }

    /** The VAT part of setupDataFromOptions(): one rate per kept element of
        --vat-rates, or the Standard rate when the option is absent; an
        unreadable percentage stops it. */
    method AppendVatRates(cmd: CommandLine) returns (error: Option<SetupError>)
      modifies this`vatRates
      ensures var r := VatRatesFromOption(Lookup(cmd, "vat-rates"));
        && (error.Some? <==> r.Failure?)
        && (error.Some? ==> error.value == r.error)
        && (error.None? ==> vatRates == old(vatRates) + r.value)
    {
      var vatOption := Lookup(cmd, "vat-rates");
      if !Truthy(vatOption) {
        vatRates := vatRates + [StandardVat];
        return None;
      }
      error := AppendVatElements(Split(vatOption.value, ','));
    }

    /** The loop over the elements of --vat-rates: each kept element
        appends its rate, in order, until one has an unreadable percentage. */
    method AppendVatElements(pieces: seq<string>) returns (error: Option<SetupError>)
      modifies this`vatRates
      ensures var r := VatRecords(pieces);
        && (error.Some? <==> r.Failure?)
        && (error.Some? ==> error.value == r.error)
        && (error.None? ==> vatRates == old(vatRates) + r.value)
    {
      var j := 0;
      while j < |pieces|
        invariant 0 <= j <= |pieces|
        invariant Gather(pieces[..j], VatElement).Success?
        invariant vatRates == old(vatRates) + Gather(pieces[..j], VatElement).value
      {
        GatherNext(pieces, j, VatElement);
        var element := VatElement(pieces[j], j);
        if element.Failure? {
          return Some(element.error);
        }
        vatRates := vatRates + element.value;
        j := j + 1;
      }
      assert pieces[..|pieces|] == pieces;
      error := None;
    }

    /** The payment-type part of setupDataFromOptions(): one type per
        element of --payment-types, or one from payment-type-name and
        payment-type-description when the option is absent. */
    method AppendPaymentTypes(cmd: CommandLine)
      modifies this`paymentTypes
      ensures paymentTypes == old(paymentTypes) + PaymentTypesFromOption(cmd)
    {
      var paymentOption := Lookup(cmd, "payment-types");
      if !Truthy(paymentOption) {
        paymentTypes := paymentTypes + [PaymentType(None, OptionText(cmd, "payment-type-name"),
                                                    NullIfFalsy(Lookup(cmd, "payment-type-description")), true, true)];
        return;
      }
      var pieces := Split(paymentOption.value, ',');
      var j := 0;
      while j < |pieces|
        invariant 0 <= j <= |pieces|
        invariant paymentTypes == old(paymentTypes) + PaymentRecords(pieces[..j])
      {
        EachSnoc(pieces, j, PaymentRecord);
        paymentTypes := paymentTypes + [PaymentRecord(pieces[j], j)];
        j := j + 1;
      }
      assert pieces[..|pieces|] == pieces;
    }

    /** The interactive setup in the order handle() runs its prompts:
        language, currency, tenant, VAT rates (where an unreadable
        percentage ends the run), payment types, order types and user. */
    method TakeAnswers(answers: WizardState, vat: VatAnswers, existing: set<string>, selected: seq<string>)
      returns (error: Option<SetupError>)
      requires vatRates == []
      requires ValidSelection(MissingCases(cases, existing), selected)
      modifies this
      ensures var r := VatFromAnswers(vat);
        && (error.Some? <==> r.Failure?)
        && (error.Some? ==> error.value == r.error)
        && (error.None? ==>
              State() == answers.(vatRates := r.value, orderTypes := ChosenOrderTypes(MissingCases(cases, existing), selected)))
    {
      languageData := answers.language;
      currencyData := answers.currency;
      tenantData := answers.tenant;
      error := SetupVatRates(vat);
      if error.Some? {
        return;
      }
      paymentTypes := answers.paymentTypes;
      SetupOrderTypes(existing, selected);
      userData := answers.user;
    }

    /** setupVatRates(): the existing rates kept as they are, or the typed
        rates added one by one. */
    method SetupVatRates(vat: VatAnswers) returns (error: Option<SetupError>)
      requires vatRates == []
      modifies this`vatRates
      ensures var r := VatFromAnswers(vat);
        && (error.Some? <==> r.Failure?)
        && (error.Some? ==> error.value == r.error)
        && (error.None? ==> vatRates == r.value)
    {
      match vat {
        case KeepExisting(rows) =>
          vatRates := rows;
          error := None;
        case Typed(entries, noneExisting) =>
          error := AddTypedRates(entries, noneExisting);
      }
    }

    /** The loop of setupVatRates() over the typed rates: each appends its
        rate, the default when the list is still empty and no rate existed,
        until bcdiv() refuses a percentage. */
    method AddTypedRates(entries: seq<VatEntry>, noneExisting: bool) returns (error: Option<SetupError>)
      requires vatRates == []
      modifies this`vatRates
      ensures var r := TypedRates(entries, noneExisting);
        && (error.Some? <==> r.Failure?)
        && (error.Some? ==> error.value == r.error)
        && (error.None? ==> vatRates == r.value)
    {
      var j := 0;
      while j < |entries|
        invariant 0 <= j <= |entries|
        invariant TypedRates(entries[..j], noneExisting).Success?
        invariant vatRates == TypedRates(entries[..j], noneExisting).value
      {
        assert entries[..j + 1][..j] == entries[..j];
        var rate := RateFromPercent(entries[j].percentage);
        if rate.None? {
          TypedRatesStop(entries, j + 1, noneExisting);
          return Some(MalformedRate(entries[j].percentage));
        }
        vatRates := vatRates + [VatRate(None, entries[j].name, rate.value, noneExisting && vatRates == [])];
        j := j + 1;
      }
      assert entries[..|entries|] == entries;
      error := None;
    }

    /** The loop of setupOrderTypes() that builds the options: the enum
        cases with no order type yet. */
    method OrderTypeOptions(existing: set<string>) returns (options: seq<string>)
      ensures options == MissingCases(cases, existing)
    {
      options := [];
      var i := 0;
      while i < |cases|
        invariant 0 <= i <= |cases|
        invariant options == MissingCases(cases[..i], existing)
      {
        if cases[i] !in existing {
          options := options + [cases[i]];
        }
        assert cases[..i + 1][..i] == cases[..i];
        i := i + 1;
      }
      assert cases[..|cases|] == cases;
    }

    /** setupOrderTypes(): no order types when every case exists, the
        selection among the missing cases otherwise; either way only enum
        cases that do not exist yet. */
    method SetupOrderTypes(existing: set<string>, selected: seq<string>)
      requires ValidSelection(MissingCases(cases, existing), selected)
      modifies this`orderTypes
      ensures orderTypes == ChosenOrderTypes(MissingCases(cases, existing), selected)
      ensures forall x :: x in orderTypes ==> x in cases && x !in existing
    {
      var options := OrderTypeOptions(existing);
      MissingCasesExact(cases, existing);
      if options == [] {
        orderTypes := [];
      } else {
        orderTypes := selected;
      }
    }

    /** The company records of finishInstallation(): the language, the
        currency and the tenant, each unless it carries an id. */
    method CreateCompany(store: Store, ghost v0: DbView, ghost tail: seq<Action>, ghost head: seq<Action>,
                         ghost all: seq<Action>)
      returns (stop: Option<Stop>, ghost done: seq<Action>)
      requires Run(v0, [], store.accepts) == RunResult(store.view, None)
      requires (if languageData.id.None? then [CreateLanguage(languageData)] else [])
        + ((if currencyData.id.None? then [CreateCurrency(currencyData)] else [])
        + ((if tenantData.id.None? then [CreateTenant(tenantData)] else []) + tail)) == head
      requires head <= all
      modifies store
      ensures stop.None? ==> done + tail == head && Run(v0, done, store.accepts) == RunResult(store.view, None)
      ensures stop.Some? ==> stop.value.Rejected?
                             && StoppedAt(v0, all, store.accepts, store.view, stop.value.action)
      ensures OtherKeysKept(old(store.view.keys), store.view.keys)
      ensures old(store.view.keys.languageCodes) <= store.view.keys.languageCodes
                <= old(store.view.keys.languageCodes) + {languageData.languageCode}
      ensures store.saved == old(store.saved)
    {
      ghost var rest := (if currencyData.id.None? then [CreateCurrency(currencyData)] else [])
        + ((if tenantData.id.None? then [CreateTenant(tenantData)] else []) + tail);
      assert [] + head == head;
      var a := CreateLanguage(languageData);
      var ok;
      ok, done := store.AttemptIf(languageData.id.None?, a, v0, [], rest, head, all);
      if !ok {
        return Some(Rejected(a)), done;
      }

      rest := (if tenantData.id.None? then [CreateTenant(tenantData)] else []) + tail;
      a := CreateCurrency(currencyData);
      ok, done := store.AttemptIf(currencyData.id.None?, a, v0, done, rest, head, all);
      if !ok {
        return Some(Rejected(a)), done;
      }

      a := CreateTenant(tenantData);
      ok, done := store.AttemptIf(tenantData.id.None?, a, v0, done, tail, head, all);
      if !ok {
        return Some(Rejected(a)), done;
      }
      stop := None;
    }

    /** The first part of finishInstallation(): the company records, then
        the admin user unless it carries an id (it gets the language's id
        first), then English when the chosen language is not English and no
        English row exists. */
    method CreateRecords(store: Store, ghost s: WizardState, ghost head: seq<Action>, ghost all: seq<Action>)
      returns (stop: Option<Stop>)
      requires s == State() && head == HeadSteps(s, store.view.keys) && head <= all
      modifies this`userData, store
      ensures var v0 := old(store.view);
        && (stop.None? ==> Run(v0, head, store.accepts) == RunResult(store.view, None))
        && (stop.Some? ==> stop.value.Rejected?
                           && StoppedAt(v0, all, store.accepts, store.view, stop.value.action))
      ensures OtherKeysKept(old(store.view.keys), store.view.keys)
      ensures store.saved == old(store.saved)
      ensures stop.None? ==>
        userData == if old(userData).id.None? then old(userData).(languageId := Some(RefOf(languageData.id)))
                    else old(userData)
    {
      ghost var v0 := store.view;
      ghost var e1 := if s.language.languageCode != "en" && "en" !in v0.keys.languageCodes then [CreateLanguage(English)] else [];
      ghost var done;
      stop, done := CreateCompany(store, v0,
        (if s.user.id.None? then [CreateUser(s.user.(languageId := Some(RefOf(s.language.id))))] else []) + e1,
        head, all);
      if stop.Some? {
        return;
      }
      assert (languageData.languageCode != "en" && "en" !in store.view.keys.languageCodes)
         <==> (s.language.languageCode != "en" && "en" !in v0.keys.languageCodes);

      if userData.id.None? {
        userData := userData.(languageId := Some(RefOf(languageData.id)));
      }
      var a := CreateUser(userData);
      var ok;
      ok, done := store.AttemptIf(userData.id.None?, a, v0, done, e1, head, all);
      if !ok {
        return Some(Rejected(a));
      }

      a := CreateLanguage(English);
      ok, done := store.AttemptIf(languageData.languageCode != "en" && "en" !in store.view.keys.languageCodes,
                                  a, v0, done, [], head, all);
      if !ok {
        return Some(Rejected(a));
      }
      assert done + [] == done;
    }

    /** The VAT loop of finishInstallation(): each rate without an id is
        created, in order. */
    method CreateVatRates(store: Store, ghost v0: DbView, ghost done: seq<Action>, ghost all: seq<Action>)
      returns (stop: Option<Stop>)
      requires Run(v0, done, store.accepts) == RunResult(store.view, None)
      requires done + VatSteps(vatRates) <= all
      modifies store
      ensures stop.None? ==> Run(v0, done + VatSteps(vatRates), store.accepts) == RunResult(store.view, None)
      ensures stop.Some? ==> stop.value.Rejected?
                             && StoppedAt(v0, all, store.accepts, store.view, stop.value.action)
      ensures store.view.keys == old(store.view.keys) && store.saved == old(store.saved)
    {
      var i := 0;
      assert vatRates[..0] == [];
      assert done + VatSteps(vatRates[..0]) == done;
      while i < |vatRates|
        invariant 0 <= i <= |vatRates|
        invariant Run(v0, done + VatSteps(vatRates[..i]), store.accepts) == RunResult(store.view, None)
        invariant store.view.keys == old(store.view.keys) && store.saved == old(store.saved)
      {
        var rate := vatRates[i];
        ghost var before := done + VatSteps(vatRates[..i]);
        VatStepsSnoc(vatRates, i);
        if rate.id.None? {
          var a := CreateVatRate(rate);
          assert done + VatSteps(vatRates[..i + 1]) == before + [a];
          VatStepsPrefix(vatRates, i + 1);
          PrefixWithin(done, VatSteps(vatRates[..i + 1]), VatSteps(vatRates), all);
          var ok := store.Attempt(a, v0, before, all);
          if !ok {
            return Some(Rejected(a));
          }
        } else {
          assert done + VatSteps(vatRates[..i + 1]) == before;
        }
        i := i + 1;
      }
      assert vatRates[..|vatRates|] == vatRates;
      stop := None;
    }

    /** The payment-type loop of finishInstallation(): each type without an
        id is created for the tenant, in order. */
    method CreatePaymentTypes(store: Store, ghost v0: DbView, ghost done: seq<Action>, ghost all: seq<Action>)
      returns (stop: Option<Stop>)
      requires Run(v0, done, store.accepts) == RunResult(store.view, None)
      requires done + PaymentSteps(paymentTypes, RefOf(tenantData.id)) <= all
      modifies store
      ensures stop.None? ==>
        Run(v0, done + PaymentSteps(paymentTypes, RefOf(tenantData.id)), store.accepts) == RunResult(store.view, None)
      ensures stop.Some? ==> stop.value.Rejected?
                             && StoppedAt(v0, all, store.accepts, store.view, stop.value.action)
      ensures store.view.keys == old(store.view.keys) && store.saved == old(store.saved)
    {
      var owner := RefOf(tenantData.id);
      var i := 0;
      assert paymentTypes[..0] == [];
      assert done + PaymentSteps(paymentTypes[..0], owner) == done;
      while i < |paymentTypes|
        invariant 0 <= i <= |paymentTypes|
        invariant Run(v0, done + PaymentSteps(paymentTypes[..i], owner), store.accepts) == RunResult(store.view, None)
        invariant store.view.keys == old(store.view.keys) && store.saved == old(store.saved)
      {
        var paymentType := paymentTypes[i];
        ghost var before := done + PaymentSteps(paymentTypes[..i], owner);
        PaymentStepsSnoc(paymentTypes, owner, i);
        if paymentType.id.None? {
          var a := CreatePaymentType(paymentType, owner);
          assert done + PaymentSteps(paymentTypes[..i + 1], owner) == before + [a];
          PaymentStepsPrefix(paymentTypes, owner, i + 1);
          PrefixWithin(done, PaymentSteps(paymentTypes[..i + 1], owner), PaymentSteps(paymentTypes, owner), all);
          var ok := store.Attempt(a, v0, before, all);
          if !ok {
            return Some(Rejected(a));
          }
        } else {
          assert done + PaymentSteps(paymentTypes[..i + 1], owner) == before;
        }
        i := i + 1;
      }
      assert paymentTypes[..|paymentTypes|] == paymentTypes;
      stop := None;
    }

    /** The order-type loop of finishInstallation(): a value that is not an
        enum case stops it; a value with no order type yet is created for
        the tenant. */
    method CreateOrderTypes(store: Store, ghost v0: DbView, ghost done: seq<Action>, ghost o: OrderPlan,
                            ghost all: seq<Action>) returns (stop: Option<Stop>)
      requires o == OrderTypeSteps(orderTypes, store.view.keys.orderTypes, cases, RefOf(tenantData.id))
      requires Run(v0, done, store.accepts) == RunResult(store.view, None)
      requires done + o.creates <= all
      modifies store
      ensures stop.None? ==> o.halt.None? && Run(v0, done + o.creates, store.accepts) == RunResult(store.view, None)
      ensures stop.Some? && stop.value.NotAnOrderType? ==>
        o.halt == Some(stop.value.value) && Run(v0, done + o.creates, store.accepts) == RunResult(store.view, None)
      ensures stop.Some? && stop.value.Rejected? ==>
        StoppedAt(v0, all, store.accepts, store.view, stop.value.action)
      ensures store.view.keys.priceListCodes == old(store.view.keys.priceListCodes)
      ensures store.view.keys.warehouseNames == old(store.view.keys.warehouseNames)
      ensures store.saved == old(store.saved)
    {
      var owner := RefOf(tenantData.id);
      ghost var existing := store.view.keys.orderTypes;
      ghost var p := OrderPlan([], {}, None);
      var i := 0;
      assert orderTypes[..0] == [];
      assert done + p.creates == done;
      while i < |orderTypes|
        invariant 0 <= i <= |orderTypes|
        invariant p == OrderTypeSteps(orderTypes[..i], existing, cases, owner) && p.halt.None?
        invariant Run(v0, done + p.creates, store.accepts) == RunResult(store.view, None)
        invariant store.view.keys.orderTypes == existing + p.made
        invariant store.view.keys.priceListCodes == old(store.view.keys.priceListCodes)
        invariant store.view.keys.warehouseNames == old(store.view.keys.warehouseNames)
        invariant store.saved == old(store.saved)
      {
        var value := orderTypes[i];
        ghost var next := OrderTypeStep(p, value, existing, cases, owner);
        OrderTypeSnoc(orderTypes, existing, cases, owner, i);
        OrderTypePrefix(orderTypes, existing, cases, owner, i + 1);
        if value !in cases {
          assert next == p.(halt := Some(value));
          return Some(NotAnOrderType(value));
        }
        assert next.halt.None?;
        PrefixWithin(done, next.creates, o.creates, all);
        var ok := AddOrderType(store, value, owner, v0, done, existing, p, all);
        if !ok {
          return Some(Rejected(CreateOrderType(value, owner)));
        }
        p := next;
        i := i + 1;
      }
      assert orderTypes[..|orderTypes|] == orderTypes;
      stop := None;
    }

    /** One value of the order-type loop, an enum case: an order type with
        this value is created for the tenant unless one exists. */
    method AddOrderType(store: Store, value: string, owner: Ref, ghost v0: DbView, ghost done: seq<Action>,
                        ghost existing: set<string>, ghost p: OrderPlan, ghost all: seq<Action>) returns (ok: bool)
      requires p.halt.None? && value in cases
      requires store.view.keys.orderTypes == existing + p.made
      requires Run(v0, done + p.creates, store.accepts) == RunResult(store.view, None)
      requires done + OrderTypeStep(p, value, existing, cases, owner).creates <= all
      modifies store
      ensures ok ==> var q := OrderTypeStep(p, value, existing, cases, owner);
        && Run(v0, done + q.creates, store.accepts) == RunResult(store.view, None)
        && store.view.keys.orderTypes == existing + q.made
      ensures !ok ==> store.view == old(store.view)
      ensures !ok ==> StoppedAt(v0, all, store.accepts, store.view, CreateOrderType(value, owner))
      ensures store.view.keys.priceListCodes == old(store.view.keys.priceListCodes)
      ensures store.view.keys.warehouseNames == old(store.view.keys.warehouseNames)
      ensures store.saved == old(store.saved)
    {
      ok := true;
      if value !in store.view.keys.orderTypes {
        var a := CreateOrderType(value, owner);
        assert OrderTypeStep(p, value, existing, cases, owner).creates == p.creates + [a];
        assert done + p.creates + [a] == done + (p.creates + [a]);
        ok := store.Attempt(a, v0, done + p.creates, all);
      }
    }

    /** The end of finishInstallation(): the 'default' price list and the
        'Default' warehouse, each unless it exists. */
    method CreateDefaults(store: Store, ghost v0: DbView, ghost done: seq<Action>, ghost all: seq<Action>)
      returns (stop: Option<Stop>)
      requires Run(v0, done, store.accepts) == RunResult(store.view, None)
      requires done + TailSteps(store.view.keys) <= all
      modifies store
      ensures stop.None? ==> Run(v0, done + TailSteps(old(store.view.keys)), store.accepts) == RunResult(store.view, None)
      ensures stop.Some? ==> stop.value.Rejected?
                             && StoppedAt(v0, all, store.accepts, store.view, stop.value.action)
      ensures store.saved == old(store.saved)
    {
      ghost var k := store.view.keys;
      ghost var p1 := if DefaultPriceListCode !in k.priceListCodes then [CreateDefaultPriceList] else [];
      ghost var w1 := if DefaultWarehouseName !in k.warehouseNames then [CreateDefaultWarehouse] else [];
      ghost var d := done;
      if DefaultPriceListCode !in store.view.keys.priceListCodes {
        var a := CreateDefaultPriceList;
        PrefixWithin(done, p1, p1 + w1, all);
        var ok := store.Attempt(a, v0, d, all);
        if !ok {
          return Some(Rejected(a));
        }
        d := d + [a];
      }
      assert d == done + p1;
      if DefaultWarehouseName !in store.view.keys.warehouseNames {
        var a := CreateDefaultWarehouse;
        assert d + [a] == done + (p1 + w1);
        var ok := store.Attempt(a, v0, d, all);
        if !ok {
          return Some(Rejected(a));
        }
        d := d + [a];
      }
      assert d == done + (p1 + w1);
      stop := None;
    }

    /** finishInstallation(): the planned rows are created in order; the
        first failed action, or the first order-type value that is not an
        enum case, stops it. */
    method FinishInstallation(store: Store) returns (stop: Option<Stop>)
      modifies this`userData, store
      ensures var f := Finish(old(State()), old(store.view), cases, store.accepts);
        stop == f.stop && store.view == f.view
      ensures store.saved == old(store.saved)
      ensures stop.None? || stop.value.NotAnOrderType? ==>
        userData == if old(userData).id.None? then old(userData).(languageId := Some(RefOf(languageData.id)))
                    else old(userData)
    {
      ghost var s := State();
      ghost var v0 := store.view;
      ghost var k0 := v0.keys;
      ghost var owner := RefOf(tenantData.id);
      ghost var plan := PlanFor(s, k0, cases);
      ghost var head := HeadSteps(s, k0);
      ghost var vats := VatSteps(vatRates);
      ghost var pays := PaymentSteps(paymentTypes, owner);
      ghost var o := OrderTypeSteps(orderTypes, k0.orderTypes, cases, owner);
      ghost var tail := if o.halt.None? then TailSteps(k0) else [];
      ghost var all := plan.creates;
      assert all == head + vats + pays + o.creates + tail;

      stop := CreateRecords(store, s, head, all);
      if stop.None? {
        stop := CreateVatRates(store, v0, head, all);
      }
      if stop.None? {
        stop := CreatePaymentTypes(store, v0, head + vats, all);
      }
      if stop.None? {
        stop := CreateOrderTypes(store, v0, head + vats + pays, o, all);
      }
      if stop.None? {
        stop := CreateDefaults(store, v0, head + vats + pays + o.creates, all);
      } else if stop.value.NotAnOrderType? {
        assert all == head + vats + pays + o.creates;
      }
      FinishFrom(s, v0, cases, store.accepts, store.view, stop);
    }

    /** The collecting part of handle(): from the options with
        --no-interaction, from the prompts' answers and the order-type
        selection otherwise. */
    method CollectRecords(input: Input, existing: set<string>) returns (error: Option<SetupError>)
      requires Pristine()
      requires input.Interactive? ==> ValidSelection(MissingCases(cases, existing), input.selected)
      modifies this
      ensures var c := Collect(input, existing, cases);
        && (error.Some? <==> c.Failure?)
        && (error.Some? ==> error.value == c.error)
        && (error.None? ==> State() == c.value)
    {
      match input {
        case NonInteractive(cmd) =>
          error := SetupDataFromOptions(cmd);
        case Interactive(answers, vat, selected) =>
          error := TakeAnswers(answers, vat, existing, selected);
      }
    }

    /** handle(): nothing when the installation is done; otherwise collect
        the records and create them in one transaction, committed only when
        every step succeeded. The exit code is 0 exactly for a completed
        installation. */
    method Handle(installDone: bool, input: Input, store: Store) returns (outcome: Outcome, exitCode: int)
      requires Pristine()
      requires input.Interactive? ==> ValidSelection(MissingCases(cases, store.view.keys.orderTypes), input.selected)
      modifies this, store
      ensures var e := Install(installDone, input, old(store.view), cases, store.accepts);
        outcome == e.outcome && store.view == e.view
      ensures exitCode == if outcome.Completed? then 0 else 1
    {
      if installDone {
        return AlreadyInstalled, 1;
      }
      var error := CollectRecords(input, store.view.keys.orderTypes);
      if error.Some? {
        outcome := match error.value
          case MissingField(f) => MissingOption(f)
          case MalformedRate(t) => UnreadableRate(t);
        return outcome, 1;
      }

      store.BeginTransaction();
      var stop := FinishInstallation(store);
      match stop {
        case None =>
          store.Commit();
          return Completed, 0;
        case Some(Rejected(a)) =>
          store.RollBack();
          return InstallFailed(a), 1;
        case Some(NotAnOrderType(x)) =>
          // The ValueError escapes the catch block; the transaction is
          // never committed, so none of its rows remain.
          store.RollBack();
          return UnknownOrderType(x), 1;
      }
    }
  }
}

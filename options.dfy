/** The non-interactive setup (`flux:install --no-interaction`): the records
    built from the command-line options alone, or the reason the command
    stops. This is the specification the Installer's SetupDataFromOptions
    method is proved against. */
module Options {
  import opened Wrappers
  import opened Text
  import opened Numeric
  import opened Records

  /** The text of every option given on the command line, and the values of
      the repeatable --order-types option. */
  datatype CommandLine = CommandLine(options: map<string, string>, orderTypes: seq<string>)

  /** The defaults the command's signature declares; the other options
      default to null. */
  function Default(name: string): (r: Option<string>) {
    if name == "language-code" then Some("en")
    else if name == "language-name" then Some("English")
    else if name == "currency-name" then Some("Euro")
    else if name == "currency-iso" then Some("EUR")
    else if name == "currency-symbol" then Some("\U{20AC}")
    else if name == "payment-type-name" then Some("Cash")
    else None
  }

  /** $this->option($name). */
  function Lookup(cmd: CommandLine, name: string): (r: Option<string>) {
    if name in cmd.options then Some(cmd.options[name]) else Default(name)
  }

  /** PHP truthiness of an option value: null, "" and "0" are false. */
  predicate Truthy(v: Option<string>) {
    v.Some? && v.value != "" && v.value != "0"
  }

  predicate Present(cmd: CommandLine, name: string) {
    Truthy(Lookup(cmd, name))
  }

  /** An option's text where a string is expected. */
  function OptionText(cmd: CommandLine, name: string): (r: string) {
    Lookup(cmd, name).GetOr("")
  }

  /** PHP's `$value ?: null`. */
  function NullIfFalsy(v: Option<string>): (r: Option<string>)
    ensures r.Some? <==> Truthy(v)
    ensures r.Some? ==> r == v
  {
    if Truthy(v) then v else None
  }

  /** The options the non-interactive mode cannot do without, in the order
      they are checked. */
  const RequiredFields: seq<string> :=
    ["company-name", "company-email", "admin-firstname", "admin-lastname", "admin-email", "admin-password"]

  datatype SetupError =
    | MissingField(name: string)   // exit(1) after "Required field '--name' is missing"
    | MalformedRate(text: string)  // bcdiv() throws on a percentage that is not a number

  /** The position of the first falsy field, or |fields| when all are set. */
  function MissingIndex(cmd: CommandLine, fields: seq<string>): (i: nat)
    ensures i <= |fields|
    ensures forall k :: 0 <= k < i ==> Present(cmd, fields[k])
    ensures i < |fields| ==> !Present(cmd, fields[i])
  {
    if fields == [] then 0
    else if !Present(cmd, fields[0]) then 0
    else 1 + MissingIndex(cmd, fields[1..])
  }

  /** tenant_code: the given company code when it is truthy, otherwise the
      first three characters of the company name, upper-cased. */
  function TenantCode(code: Option<string>, name: string): (r: string)
    ensures Truthy(code) ==> r == code.value
    ensures !Truthy(code) ==> |r| == Min(3, |name|)
    ensures !Truthy(code) ==> forall k :: 0 <= k < |r| ==> !IsLower(r[k]) && r[k] == UpperChar(name[k])
  {
    if Truthy(code) then code.value else Upper(Take(name, 3))
  }

  /** user_code: the upper-cased first character of the first name followed
      by that of the last name. */
  function UserCode(firstname: string, lastname: string): (r: string)
    ensures |r| == Min(1, |firstname|) + Min(1, |lastname|) && |r| <= 2
    ensures forall k :: 0 <= k < |r| ==> !IsLower(r[k])
    ensures firstname != [] ==> r[0] == UpperChar(firstname[0])
    ensures lastname != [] ==> r[|r| - 1] == UpperChar(lastname[0])
  {
    var both := Take(firstname, 1) + Take(lastname, 1);
    UpperAppend(Take(firstname, 1), Take(lastname, 1));
    Upper(both)
  }

  /** A VAT element is kept only when splitting it on ':' gives exactly two
      parts. */
  predicate Shaped(piece: string) {
    |Split(piece, ':')| == 2
  }

  /** The trimmed name and percentage of a kept VAT element. */
  function VatName(piece: string): (r: string)
    requires Shaped(piece)
  {
    Trim(Split(piece, ':')[0])
  }

  function VatPercent(piece: string): (r: string)
    requires Shaped(piece)
  {
    Trim(Split(piece, ':')[1])
  }

  /** One iteration of the VAT loop: the element at original index i
      becomes one rate (the default one when i is 0), nothing when it does
      not have exactly two ':' parts, or stops the command when bcmath
      cannot read its percentage. */
  function VatElement(piece: string, i: nat): (r: Result<seq<VatRate>, SetupError>)
    ensures r.Success? <==> RateReadable(piece)
    ensures r.Failure? ==> Shaped(piece) && r.error == MalformedRate(VatPercent(piece))
    ensures r.Success? && !Shaped(piece) ==> r.value == []
    ensures r.Success? && Shaped(piece) ==> r.value == [VatRecordOf(piece, i)]
  {
    if !Shaped(piece) then Success([])
    else match RateFromPercent(VatPercent(piece))
      case None => Failure(MalformedRate(VatPercent(piece)))
      case Some(rate) => Success([VatRate(None, VatName(piece), rate, i == 0)])
  }

  /** The loop over the comma-separated elements of an option: iteration i
      appends what step yields for element i, and the first failing
      iteration stops the command with its error. */
  function Gather<T, E>(pieces: seq<string>, step: (string, nat) -> Result<seq<T>, E>): (r: Result<seq<T>, E>)
  {
    if pieces == [] then Success([])
    else
      var i := |pieces| - 1;
      var front :- Gather(pieces[..i], step);
      var more :- step(pieces[i], i);
      Success(front + more)
  }

  /** The loop completes exactly when every iteration succeeds. */
  lemma {:induction false} GatherSucceeds<T, E>(pieces: seq<string>, step: (string, nat) -> Result<seq<T>, E>)
    ensures Gather(pieces, step).Success? <==> forall i :: 0 <= i < |pieces| ==> step(pieces[i], i).Success?
  {
    if pieces != [] {
      var i := |pieces| - 1;
      GatherSucceeds(pieces[..i], step);
      assert forall j :: 0 <= j < i ==> pieces[..i][j] == pieces[j];
    }
  }

  /** A failed loop reports the error of its first failing iteration. */
  lemma {:induction false} GatherFailure<T, E>(pieces: seq<string>, step: (string, nat) -> Result<seq<T>, E>)
    requires Gather(pieces, step).Failure?
    ensures exists i :: (0 <= i < |pieces| && step(pieces[i], i).Failure?
                         && Gather(pieces, step).error == step(pieces[i], i).error
                         && forall j :: 0 <= j < i ==> step(pieces[j], j).Success?)
  {
    var i := |pieces| - 1;
    var front := pieces[..i];
    assert forall j :: 0 <= j < i ==> front[j] == pieces[j];
    if Gather(front, step).Failure? {
      GatherFailure(front, step);
    } else {
      GatherSucceeds(front, step);
    }
  }

  /** Once an iteration has failed, the later elements change nothing. */
  lemma {:induction false} GatherStops<T, E>(pieces: seq<string>, j: nat, step: (string, nat) -> Result<seq<T>, E>)
    requires j <= |pieces| && Gather(pieces[..j], step).Failure?
    ensures Gather(pieces, step) == Gather(pieces[..j], step)
    decreases |pieces| - j
  {
    if j < |pieces| {
      assert pieces[..j + 1][..j] == pieces[..j];
      GatherStops(pieces, j + 1, step);
    } else {
      assert pieces[..j] == pieces;
    }
  }

  /** The loop one element further, from a prefix that succeeded: a failing
      element ends the whole loop with its error, any other appends its
      records. */
  lemma GatherNext<T, E>(pieces: seq<string>, j: nat, step: (string, nat) -> Result<seq<T>, E>)
    requires j < |pieces| && Gather(pieces[..j], step).Success?
    ensures step(pieces[j], j).Failure? ==> Gather(pieces, step) == Failure(step(pieces[j], j).error)
    ensures step(pieces[j], j).Success? ==>
      Gather(pieces[..j + 1], step) == Success(Gather(pieces[..j], step).value + step(pieces[j], j).value)
  {
    assert pieces[..j + 1][..j] == pieces[..j];
    if step(pieces[j], j).Failure? {
      GatherStops(pieces, j + 1, step);
    }
  }

  function VatRecords(pieces: seq<string>): (r: Result<seq<VatRate>, SetupError>) {
    Gather(pieces, VatElement)
  }

  /** The original indices of the elements kept, in order. */
  function KeptIndices(pieces: seq<string>, kept: string -> bool): (r: seq<nat>)
    ensures forall k :: 0 <= k < |r| ==> r[k] < |pieces| && kept(pieces[r[k]])
    ensures forall k, l :: 0 <= k < l < |r| ==> r[k] < r[l]
    ensures forall i :: 0 <= i < |pieces| && kept(pieces[i]) ==> i in r
  {
    if pieces == [] then []
    else
      var i := |pieces| - 1;
      var front := KeptIndices(pieces[..i], kept);
      front + (if kept(pieces[i]) then [i] else [])
  }

  /** A loop whose iteration i appends one record for an element it keeps
      and nothing otherwise completes with one record per kept element, in
      order. */
  lemma {:induction false} GatherKept<T, E>(pieces: seq<string>, step: (string, nat) -> Result<seq<T>, E>,
                                           kept: string -> bool, record: (string, nat) --> T)
    requires forall i :: 0 <= i < |pieces| && kept(pieces[i]) ==> record.requires(pieces[i], i)
    requires forall i :: 0 <= i < |pieces| ==>
      step(pieces[i], i) == Success(if kept(pieces[i]) then [record(pieces[i], i)] else [])
    ensures Gather(pieces, step).Success?
    ensures var rs := Gather(pieces, step).value;
      var ix := KeptIndices(pieces, kept);
      |rs| == |ix| && forall k :: 0 <= k < |rs| ==> rs[k] == record(pieces[ix[k]], ix[k])
  {
    if pieces != [] {
      var i := |pieces| - 1;
      var front := pieces[..i];
      assert forall j :: 0 <= j < i ==> front[j] == pieces[j];
      GatherKept(front, step, kept, record);
      var rs := Gather(front, step).value;
      var ix := KeptIndices(front, kept);
      forall k | 0 <= k < |rs|
        ensures rs[k] == record(pieces[ix[k]], ix[k])
      {
        assert front[ix[k]] == pieces[ix[k]];
      }
    }
  }

  /** The original indices of the elements with exactly two parts. */
  function ShapedIndices(pieces: seq<string>): (r: seq<nat>)
    ensures forall k :: 0 <= k < |r| ==> r[k] < |pieces| && Shaped(pieces[r[k]])
    ensures forall k, l :: 0 <= k < l < |r| ==> r[k] < r[l]
    ensures forall i :: 0 <= i < |pieces| && Shaped(pieces[i]) ==> i in r
  {
    KeptIndices(pieces, Shaped)
  }

  predicate RateReadable(piece: string) {
    Shaped(piece) ==> RateFromPercent(VatPercent(piece)).Some?
  }

  /** The record a kept, readable element at original index i becomes. */
  function VatRecordOf(piece: string, i: nat): (r: VatRate)
    requires Shaped(piece) && RateReadable(piece)
  {
    VatRate(None, VatName(piece), RateFromPercent(VatPercent(piece)).value, i == 0)
  }

  /** Reading the VAT option fails exactly when some kept element has a
      percentage bcmath cannot read, and then names the first such
      percentage. */
  lemma VatRecordsOutcome(pieces: seq<string>)
    ensures VatRecords(pieces).Success? <==> forall i :: 0 <= i < |pieces| ==> RateReadable(pieces[i])
    ensures VatRecords(pieces).Failure? ==>
      exists i :: (0 <= i < |pieces| && !RateReadable(pieces[i])
                   && VatRecords(pieces).error == MalformedRate(VatPercent(pieces[i]))
                   && forall j :: 0 <= j < i ==> RateReadable(pieces[j]))
  {
    GatherSucceeds(pieces, VatElement);
    assert (forall i :: 0 <= i < |pieces| ==> VatElement(pieces[i], i).Success?)
       <==> (forall i :: 0 <= i < |pieces| ==> RateReadable(pieces[i]));
    if VatRecords(pieces).Failure? {
      GatherFailure(pieces, VatElement);
      var i :| 0 <= i < |pieces| && VatElement(pieces[i], i).Failure?
               && VatRecords(pieces).error == VatElement(pieces[i], i).error
               && forall j :: 0 <= j < i ==> VatElement(pieces[j], j).Success?;
      assert !RateReadable(pieces[i]);
    }
  }

  /** On success the VAT list is exactly the kept elements, in order, each
      read as its trimmed name and rate, with is_default set for original
      index 0 only. */
  lemma VatRecordsContents(pieces: seq<string>)
    requires forall i :: 0 <= i < |pieces| ==> RateReadable(pieces[i])
    ensures VatRecords(pieces).Success?
    ensures var rs := VatRecords(pieces).value;
      var ix := ShapedIndices(pieces);
      |rs| == |ix| && forall k :: 0 <= k < |rs| ==> rs[k] == VatRecordOf(pieces[ix[k]], ix[k])
  {
    GatherKept(pieces, VatElement, Shaped, VatRecordOf);
  }

  /** Only the element at original index 0 can be the default rate: the
      first record is default exactly when that element was kept, and no
      other record is. */
  lemma VatDefaultOnlyFirst(pieces: seq<string>)
    requires VatRecords(pieces).Success?
    ensures var rs := VatRecords(pieces).value;
      forall k :: 0 <= k < |rs| ==> (rs[k].isDefault <==> k == 0 && Shaped(pieces[0]))
  {
    VatRecordsOutcome(pieces);
    VatRecordsContents(pieces);
    var rs := VatRecords(pieces).value;
    var ix := ShapedIndices(pieces);
    forall k | 0 <= k < |rs|
      ensures rs[k].isDefault <==> k == 0 && Shaped(pieces[0])
    {
      assert rs[k].isDefault == (ix[k] == 0);
      if k > 0 {
        assert ix[0] < ix[k];
      } else if Shaped(pieces[0]) {
        assert 0 in ix;
        var m :| 0 <= m < |ix| && ix[m] == 0;
      }
    }
  }

  /** An element without exactly two parts is dropped, so an option with no
      well-shaped element yields no VAT rate at all. */
  lemma {:induction false} VatNothingKept(pieces: seq<string>)
    requires forall i :: 0 <= i < |pieces| ==> !Shaped(pieces[i])
    ensures VatRecords(pieces) == Success([])
  {
    if pieces != [] {
      var i := |pieces| - 1;
      assert forall j :: 0 <= j < i ==> pieces[..i][j] == pieces[j];
      VatNothingKept(pieces[..i]);
      assert Gather(pieces[..i], VatElement) == Success([]);
      assert VatElement(pieces[i], i) == Success([]);
      var none: seq<VatRate> := [];
      assert Gather(pieces, VatElement) == Success(none + none);
      assert none + none == none;
    }
  }

  /** The rate used when --vat-rates is not given: "Standard" at 19 %. */
  const StandardVat: VatRate := VatRate(None, "Standard", 1900, true)

  function VatRatesFromOption(v: Option<string>): (r: Result<seq<VatRate>, SetupError>) {
    if Truthy(v) then VatRecords(Split(v.value, ',')) else Success([StandardVat])
  }

  /** Without --vat-rates the list is the single default Standard rate,
      whose 1900 is bcdiv('19', '100', 4). */
  lemma DefaultVat(v: Option<string>)
    requires !Truthy(v)
    ensures VatRatesFromOption(v) == Success([StandardVat])
    ensures RateFromPercent("19") == Some(StandardVat.rate) && StandardVat.isDefault
  {
    KnownRates();
  }

  /** One element of --payment-types: the trimmed part before the first
      ':' is the name, the trimmed second part (if any) the description. */
  function PaymentRecord(piece: string, index: nat): (p: PaymentType)
    ensures p.id.None? && p.isActive && (p.isDefault <==> index == 0)
    ensures p.description.None? <==> ':' !in piece
    ensures ':' !in p.name && (p.description.Some? ==> ':' !in p.description.value)
  {
    var parts := Split(piece, ':');
    SplitPieces(piece, ':');
    SplitOne(piece, ':');
    TrimKeepsAbsent(parts[0], ':');
    var description := if |parts| >= 2 then TrimKeepsAbsent(parts[1], ':'); Some(Trim(parts[1])) else None;
    PaymentType(None, Trim(parts[0]), description, true, index == 0)
  }

  /** The loop over the comma-separated elements of an option when every
      element yields exactly one record: element i becomes f(element, i). */
  function Each<T>(pieces: seq<string>, f: (string, nat) -> T): (r: seq<T>)
    ensures |r| == |pieces|
    ensures forall i :: 0 <= i < |pieces| ==> r[i] == f(pieces[i], i)
  {
    seq(|pieces|, i requires 0 <= i < |pieces| => f(pieces[i], i))
  }

  /** The loop one element further. */
  lemma EachSnoc<T>(pieces: seq<string>, j: nat, f: (string, nat) -> T)
    requires j < |pieces|
    ensures Each(pieces[..j + 1], f) == Each(pieces[..j], f) + [f(pieces[j], j)]
  {
  }

  function PaymentRecords(pieces: seq<string>): (r: seq<PaymentType>) {
    Each(pieces, PaymentRecord)
  }

  function PaymentTypesFromOption(cmd: CommandLine): (r: seq<PaymentType>) {
    var v := Lookup(cmd, "payment-types");
    if Truthy(v) then PaymentRecords(Split(v.value, ','))
    else [PaymentType(None, OptionText(cmd, "payment-type-name"),
                      NullIfFalsy(Lookup(cmd, "payment-type-description")), true, true)]
  }

  /** Every comma-separated element becomes one active payment type, only
      the first is the default, and no name or description contains a
      separator. */
  lemma PaymentTypesSpec(cmd: CommandLine)
    ensures var v := Lookup(cmd, "payment-types");
      var ps := PaymentTypesFromOption(cmd);
      (Truthy(v) ==> |ps| == Count(v.value, ',') + 1)
      && (!Truthy(v) ==> |ps| == 1 && ps[0].name == OptionText(cmd, "payment-type-name"))
      && forall k :: 0 <= k < |ps| ==>
           ps[k].id.None? && ps[k].isActive && (ps[k].isDefault <==> k == 0)
           && (Truthy(v) ==> ',' !in ps[k].name && ':' !in ps[k].name)
  {
    var v := Lookup(cmd, "payment-types");
    if Truthy(v) {
      var pieces := Split(v.value, ',');
      SplitPieces(v.value, ',');
      forall k | 0 <= k < |pieces|
        ensures ',' !in PaymentRecord(pieces[k], k).name
      {
        var parts := Split(pieces[k], ':');
        assert Join(parts, ':') == pieces[k] by { JoinSplit(pieces[k], ':'); }
        JoinFree(parts, ':', ',');
        TrimKeepsAbsent(parts[0], ',');
      }
    }
  }

  /** A character absent from a joined string is absent from every piece. */
  lemma {:induction false} JoinFree(pieces: seq<string>, sep: char, c: char)
    requires |pieces| >= 1 && c !in Join(pieces, sep)
    ensures forall k :: 0 <= k < |pieces| ==> c !in pieces[k]
  {
    if |pieces| > 1 {
      var rest := Join(pieces[1..], sep);
      assert Join(pieces, sep) == pieces[0] + [sep] + rest;
      assert forall x :: x in pieces[0] ==> x in Join(pieces, sep);
      assert forall x :: x in rest ==> x in Join(pieces, sep);
      JoinFree(pieces[1..], sep, c);
      assert forall k :: 1 <= k < |pieces| ==> pieces[k] == pieces[1..][k - 1];
    }
  }

  /** Order types: the --order-types values verbatim, or every enum case
      when none is given. */
  function OrderTypesFromOption(given: seq<string>, cases: seq<string>): (r: seq<string>) {
    if given != [] then given else cases
  }

  function LanguageFromOptions(cmd: CommandLine): (r: Language) {
    Language(None, OptionText(cmd, "language-name"), OptionText(cmd, "language-code"), OptionText(cmd, "language-code"))
  }

  function CurrencyFromOptions(cmd: CommandLine): (r: Currency) {
    Currency(None, OptionText(cmd, "currency-name"), OptionText(cmd, "currency-iso"), OptionText(cmd, "currency-symbol"), true)
  }

  function TenantFromOptions(cmd: CommandLine): (r: Tenant) {
    var name := OptionText(cmd, "company-name");
    Tenant(None, name, TenantCode(Lookup(cmd, "company-code"), name), OptionText(cmd, "company-email"),
           NullIfFalsy(Lookup(cmd, "company-phone")), NullIfFalsy(Lookup(cmd, "company-street")),
           NullIfFalsy(Lookup(cmd, "company-postcode")), NullIfFalsy(Lookup(cmd, "company-city")), true)
  }

  function UserFromOptions(cmd: CommandLine): (r: AdminUser) {
    var first := OptionText(cmd, "admin-firstname");
    var last := OptionText(cmd, "admin-lastname");
    AdminUser(None, first, last, OptionText(cmd, "admin-email"), Some(OptionText(cmd, "admin-password")),
              None, Some(UserCode(first, last)), Some(true), None)
  }

  /** setupDataFromOptions(): the first missing required field stops the
      command; otherwise the records built from the options. */
  function DataFromOptions(cmd: CommandLine, cases: seq<string>): (r: Result<WizardState, SetupError>) {
    var i := MissingIndex(cmd, RequiredFields);
    if i < |RequiredFields| then Failure(MissingField(RequiredFields[i]))
    else
      var vats :- VatRatesFromOption(Lookup(cmd, "vat-rates"));
      Success(WizardState(LanguageFromOptions(cmd), CurrencyFromOptions(cmd), TenantFromOptions(cmd), vats,
                          PaymentTypesFromOption(cmd), OrderTypesFromOption(cmd.orderTypes, cases),
                          UserFromOptions(cmd)))
  }

  /** With every required option present and the VAT option read, the
      setup collects the records built from the options. */
  lemma DataFromReadOptions(cmd: CommandLine, cases: seq<string>, vats: seq<VatRate>)
    requires MissingIndex(cmd, RequiredFields) == |RequiredFields|
    requires VatRatesFromOption(Lookup(cmd, "vat-rates")) == Success(vats)
    ensures DataFromOptions(cmd, cases)
         == Success(WizardState(LanguageFromOptions(cmd), CurrencyFromOptions(cmd), TenantFromOptions(cmd), vats,
                                PaymentTypesFromOption(cmd), OrderTypesFromOption(cmd.orderTypes, cases),
                                UserFromOptions(cmd)))
  {
  }

  /** The setup stops at the first missing required option. */
  lemma DataFromMissingOption(cmd: CommandLine, cases: seq<string>)
    requires MissingIndex(cmd, RequiredFields) < |RequiredFields|
    ensures DataFromOptions(cmd, cases) == Failure(MissingField(RequiredFields[MissingIndex(cmd, RequiredFields)]))
  {
  }

  /** With every required option present, an unreadable VAT percentage
      stops the setup. */
  lemma DataFromUnreadVat(cmd: CommandLine, cases: seq<string>)
    requires MissingIndex(cmd, RequiredFields) == |RequiredFields|
    requires VatRatesFromOption(Lookup(cmd, "vat-rates")).Failure?
    ensures DataFromOptions(cmd, cases) == Failure(VatRatesFromOption(Lookup(cmd, "vat-rates")).error)
  {
  }

  /** The command stops on a missing field exactly when one of the required
      options is falsy, and it names the first of them in list order. */
  lemma RequiredFieldsChecked(cmd: CommandLine, cases: seq<string>)
    ensures var r := DataFromOptions(cmd, cases);
      (r.Failure? && r.error.MissingField?) <==> exists f :: f in RequiredFields && !Present(cmd, f)
    ensures var r := DataFromOptions(cmd, cases);
      r.Failure? && r.error.MissingField? ==>
        exists i :: 0 <= i < |RequiredFields| && r.error.name == RequiredFields[i] && !Present(cmd, RequiredFields[i])
                    && forall k :: 0 <= k < i ==> Present(cmd, RequiredFields[k])
  {
    var i := MissingIndex(cmd, RequiredFields);
    var v := Lookup(cmd, "vat-rates");
    if Truthy(v) {
      VatRecordsOutcome(Split(v.value, ','));
    }
    if exists f :: f in RequiredFields && !Present(cmd, f) {
      var f :| f in RequiredFields && !Present(cmd, f);
      var j :| 0 <= j < |RequiredFields| && RequiredFields[j] == f;
      assert i < |RequiredFields|;
    }
  }

  /** What a successful non-interactive setup collects: no record carries an
      id, and the language, tenant, currency and order types follow the
      options and the signature's defaults. */
  lemma OptionsRecords(cmd: CommandLine, cases: seq<string>)
    requires DataFromOptions(cmd, cases).Success?
    ensures var s := DataFromOptions(cmd, cases).value;
      && s.language.id.None? && s.currency.id.None? && s.tenant.id.None? && s.user.id.None?
      && (forall k :: 0 <= k < |s.vatRates| ==> s.vatRates[k].id.None?)
      && (forall k :: 0 <= k < |s.paymentTypes| ==> s.paymentTypes[k].id.None?)
      && s.language.languageCode == OptionText(cmd, "language-code")
      && s.tenant.name == OptionText(cmd, "company-name") && s.tenant.isDefault && s.currency.isDefault
      && s.orderTypes == (if cmd.orderTypes != [] then cmd.orderTypes else cases)
  {
    var v := Lookup(cmd, "vat-rates");
    var vats := VatRatesFromOption(v).value;
    assert DataFromOptions(cmd, cases).value.vatRates == vats;
    if Truthy(v) {
      var pieces := Split(v.value, ',');
      VatRecordsOutcome(pieces);
      VatRecordsContents(pieces);
    }
    PaymentTypesSpec(cmd);
  }

  /** The defaults a successful non-interactive setup marks: at most one
      VAT rate (the first) and exactly one payment type (the first), and the
      admin's user code is two upper-cased initials. */
  lemma OptionsDefaults(cmd: CommandLine, cases: seq<string>)
    requires DataFromOptions(cmd, cases).Success?
    ensures var s := DataFromOptions(cmd, cases).value;
      && s.user.userCode.Some? && |s.user.userCode.value| == 2
      && (forall k :: 0 <= k < |s.vatRates| && s.vatRates[k].isDefault ==> k == 0)
      && (forall k :: 0 <= k < |s.paymentTypes| ==> (s.paymentTypes[k].isDefault <==> k == 0))
  {
    var i := MissingIndex(cmd, RequiredFields);
    assert i == |RequiredFields|;
    assert Present(cmd, RequiredFields[2]) && Present(cmd, RequiredFields[3]);
    PaymentTypesSpec(cmd);
    var v := Lookup(cmd, "vat-rates");
    assert DataFromOptions(cmd, cases).value.vatRates == VatRatesFromOption(v).value;
    if Truthy(v) {
      VatDefaultOnlyFirst(Split(v.value, ','));
    }
  }

  /** The install tests' tenant-code cases: without --company-code the tenant
      code of "Amazing Test Company" is "AMA", a given code is kept, and
      Jane Smith's user code is "JS". */
  lemma CodeExamples()
    ensures TenantCode(None, "Amazing Test Company") == "AMA"
    ensures TenantCode(Some("MTC"), "My Test Company") == "MTC"
    ensures TenantCode(Some(""), "Ab") == "AB"
    ensures UserCode("Jane", "Smith") == "JS"
  {
    assert Take("Amazing Test Company", 3) == "Ama";
    assert Take("Ab", 3) == "Ab";
    assert Take("Jane", 1) + Take("Smith", 1) == "JS";
  }

  /** With no options at all the command stops on --company-name. */
  lemma NoOptionsStops(cases: seq<string>)
    ensures DataFromOptions(CommandLine(map[], []), cases) == Failure(MissingField("company-name"))
  {
    assert !Present(CommandLine(map[], []), RequiredFields[0]);
  }
}

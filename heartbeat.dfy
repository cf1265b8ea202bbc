/** The licence heartbeat (`flux-license:send-update`): the active users are
    posted to the licence server under the configured licence key, and the
    response status decides which single line the command prints. */
module Heartbeat {
  import opened Wrappers
  import opened Numeric

  /** The columns of a user row the heartbeat reads. */
  datatype UserRow = UserRow(email: string, isActive: bool)

  /** The JSON body of the request. */
  datatype Payload = Payload(activeUsers: nat, users: seq<string>)

  /** The number of rows with is_active set. */
  function ActiveCount(rows: seq<UserRow>): (r: nat) {
    if rows == [] then 0
    else ActiveCount(rows[..|rows| - 1]) + (if rows[|rows| - 1].isActive then 1 else 0)
  }

  /** The emails of the rows with is_active set, in row order. */
  function ActiveEmails(rows: seq<UserRow>): (r: seq<string>) {
    if rows == [] then []
    else ActiveEmails(rows[..|rows| - 1]) + (if rows[|rows| - 1].isActive then [rows[|rows| - 1].email] else [])
  }

  /** The body posted: the active-user count and the active users' emails. */
  function PayloadOf(rows: seq<UserRow>): (p: Payload)
    ensures p.activeUsers == |p.users|
  {
    CountMatchesEmails(rows);
    Payload(ActiveCount(rows), ActiveEmails(rows))
  }

  /** The two queries agree: the count is the number of emails listed. */
  lemma {:induction false} CountMatchesEmails(rows: seq<UserRow>)
    ensures ActiveCount(rows) == |ActiveEmails(rows)|
  {
    if rows != [] {
      CountMatchesEmails(rows[..|rows| - 1]);
    }
  }

  /** An email is listed exactly when some active row has it; an inactive
      user's email appears only if an active row shares it. */
  lemma {:induction false} EmailsOfActiveRows(rows: seq<UserRow>)
    ensures forall e :: e in ActiveEmails(rows) <==> exists i :: 0 <= i < |rows| && rows[i].isActive && rows[i].email == e
  {
    if rows != [] {
      var front := rows[..|rows| - 1];
      EmailsOfActiveRows(front);
      assert forall i :: 0 <= i < |front| ==> front[i] == rows[i];
    }
  }

  /** With no active row nothing is listed and the count is 0. */
  lemma {:induction false} NoActiveUsers(rows: seq<UserRow>)
    requires forall i :: 0 <= i < |rows| ==> !rows[i].isActive
    ensures PayloadOf(rows) == Payload(0, [])
  {
    if rows != [] {
      NoActiveUsers(rows[..|rows| - 1]);
    }
  }

  const LicenseEndpoint: string := "https://flux.team-nifty.com/api/flux-licenses/"

  /** The request URL: the endpoint followed by config('flux.license_key');
      a missing key concatenates as the empty string. */
  function RequestUrl(licenseKey: Option<string>): (url: string)
    ensures LicenseEndpoint <= url
    ensures url[|LicenseEndpoint|..] == licenseKey.GetOr("")
  {
    LicenseEndpoint + licenseKey.GetOr("")
  }

  /** The line the command prints. */
  datatype Message = Error(text: string) | Info(text: string)

  /** Response::failed(): a client or server error status. */
  predicate Failed(status: nat) {
    status >= 400
  }

  const FailurePrefix: string := "Failed to send update to flux.team-nifty.com: "
  const SuccessText: string := "Successfully sent update to flux.team-nifty.com"

  /** The one line printed for a response: an error naming the status when
      the request failed, the success line otherwise. The command returns
      normally either way. */
  function Report(status: nat): (m: Message)
    ensures m.Error? <==> Failed(status)
    ensures m.Error? ==> FailurePrefix <= m.text && IsDecimalOf(m.text[|FailurePrefix|..], status)
    ensures m.Info? ==> m.text == SuccessText
  {
    if Failed(status) then Error(FailurePrefix + NatToDecimal(status)) else Info(SuccessText)
  }

  /** s is the plain decimal spelling of n. */
  predicate IsDecimalOf(s: string, n: nat) {
    |s| >= 1 && AllDigits(s) && DigitsValue(s) == n && (s[0] == '0' ==> s == "0")
  }

  /** A 500 is reported as "...: 500"; a 200 and a 302 as success. */
  lemma ReportExamples()
    ensures Report(500) == Error("Failed to send update to flux.team-nifty.com: 500")
    ensures Report(200) == Info(SuccessText) && Report(302) == Info(SuccessText)
    ensures Report(404).Error?
  {
    assert NatToDecimal(500) == NatToDecimal(50) + ['0'];
    assert NatToDecimal(50) == NatToDecimal(5) + ['0'];
  }
}

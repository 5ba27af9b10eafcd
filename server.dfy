/**
 * The record and login endpoints of backend/main.py. The JSON file the
 * server loads and saves is the `records` field of a `RecordDb`; update and
 * delete scan it for the first record with the requested id and change it
 * in place.
 */
module Server {
  import opened Wrappers
  import opened Seqs
  import opened Records

  const NotFound := HttpError(404, "Record not found")
  const RecordDeleted := "Record deleted"

  function IdIs(id: int): SkillRecord -> bool {
    (r: SkillRecord) => r.id == id
  }

  /** The position of the first record with the id, or -1. */
  function IndexOfId(records: seq<SkillRecord>, id: int): (i: int)
    ensures -1 <= i < |records|
    ensures i == -1 <==> forall k :: 0 <= k < |records| ==> records[k].id != id
    ensures i >= 0 ==> records[i].id == id && forall k :: 0 <= k < i ==> records[k].id != id
  {
    FindFirst(records, IdIs(id))
  }

  /** The records after a successful update: the first match replaced by the body. */
  function Updated(records: seq<SkillRecord>, id: int, body: SkillRecord): (r: seq<SkillRecord>)
    requires IndexOfId(records, id) >= 0
    ensures |r| == |records|
    ensures r[IndexOfId(records, id)] == body
    ensures forall k :: 0 <= k < |records| && k != IndexOfId(records, id) ==> r[k] == records[k]
  {
    records[IndexOfId(records, id) := body]
  }

  /** The records after a successful delete: the first match removed. */
  function Deleted(records: seq<SkillRecord>, id: int): (r: seq<SkillRecord>)
    requires IndexOfId(records, id) >= 0
    ensures |r| == |records| - 1
    ensures var i := IndexOfId(records, id);
      && (forall k :: 0 <= k < i ==> r[k] == records[k])
      && (forall k :: i < k < |records| ==> r[k - 1] == records[k])
  {
    var i := IndexOfId(records, id);
    records[..i] + records[i + 1..]
  }

  /** Delete takes away one copy of the matched record and nothing else. */
  lemma DeletedMultiset(records: seq<SkillRecord>, id: int)
    requires IndexOfId(records, id) >= 0
    ensures var i := IndexOfId(records, id);
      multiset(Deleted(records, id)) == multiset(records) - multiset{records[i]}
  {
    var i := IndexOfId(records, id);
    assert records == records[..i] + [records[i]] + records[i + 1..];
  }

  /**
   * When two records share an id, delete removes only the first, and the
   * second is what the next request for that id finds.
   */
  lemma DeleteLeavesLaterDuplicate(records: seq<SkillRecord>, id: int, i: int, j: int)
    requires i == IndexOfId(records, id) && 0 <= i < j < |records| && records[j].id == id
    ensures IndexOfId(records[i + 1..], id) >= 0
    ensures IndexOfId(Deleted(records, id), id) == i + IndexOfId(records[i + 1..], id)
  {
    var d := Deleted(records, id);
    var rest := records[i + 1..];
    assert rest[j - i - 1].id == id;
    var m := IndexOfId(rest, id);
    assert d[i + m] == rest[m];
    forall k | 0 <= k < i + m ensures d[k].id != id {
      if k >= i {
        assert d[k] == rest[k - i];
      }
    }
    FindFirstIsFirst(d, IdIs(id), i + m);
  }

  /**
   * The body's own id is stored as sent: updating record 1 with a body
   * whose id is 2 leaves no record 1 behind.
   */
  lemma UpdateMayChangeId(r: SkillRecord)
    requires r.id == 1
    ensures Updated([r], 1, r.(id := 2)) == [r.(id := 2)]
    ensures IndexOfId(Updated([r], 1, r.(id := 2)), 1) == -1
  {
  }

  class RecordDb {
    var records: seq<SkillRecord>

    constructor (initial: seq<SkillRecord>)
      ensures records == initial
    {
      records := initial;
    }

    /**
     * `update_record`: the first record with `recordId` becomes `body`, which
     * is returned; with no such record the answer is 404 and nothing changes.
     */
    method UpdateRecord(recordId: int, body: SkillRecord) returns (response: Result<SkillRecord, HttpError>)
      modifies this
      ensures IndexOfId(old(records), recordId) == -1 ==>
                response == Err(NotFound) && records == old(records)
      ensures IndexOfId(old(records), recordId) >= 0 ==>
                response == Ok(body) && records == Updated(old(records), recordId, body)
    {
      var i := 0;
      while i < |records|
        invariant 0 <= i <= |records| && records == old(records)
        invariant forall k :: 0 <= k < i ==> records[k].id != recordId
      {
        if records[i].id == recordId {
          FindFirstIsFirst(records, IdIs(recordId), i);
          records := records[i := body];
          return Ok(records[i]);
        }
        i := i + 1;
      }
      return Err(NotFound);
    }

    /**
     * `delete_record`: the first record with `recordId` is removed; with no
     * such record the answer is 404 and nothing changes.
     */
    method DeleteRecord(recordId: int) returns (response: Result<string, HttpError>)
      modifies this
      ensures IndexOfId(old(records), recordId) == -1 ==>
                response == Err(NotFound) && records == old(records)
      ensures IndexOfId(old(records), recordId) >= 0 ==>
                response == Ok(RecordDeleted) && records == Deleted(old(records), recordId)
    {
      var i := 0;
      while i < |records|
        invariant 0 <= i <= |records| && records == old(records)
        invariant forall k :: 0 <= k < i ==> records[k].id != recordId
      {
        if records[i].id == recordId {
          FindFirstIsFirst(records, IdIs(recordId), i);
          records := records[..i] + records[i + 1..];
          return Ok(RecordDeleted);
        }
        i := i + 1;
      }
      return Err(NotFound);
    }
  }

  // ---------------------------------------------------------------------
  // Login and one-time code
  // ---------------------------------------------------------------------

  /** The accepted email and password pairs. */
  const Accounts: seq<(string, string)> := [
    ("brijesh.dubey@raymond.in", "pass123"),
    ("demo@example.com", "password"),
    ("admin@raymond.in", "@Pass123")]

  const InvalidCredentials := HttpError(401, "Invalid credentials")

  /** `login`: the `message` of the answer, or 401. */
  function Login(email: string, password: string): (r: Result<string, HttpError>)
    ensures r.Ok? <==> (email, password) in Accounts
    ensures r.Ok? ==> r.value == "OTP sent to " + email
    ensures r.Err? ==> r.error == InvalidCredentials
  {
    if email == "brijesh.dubey@raymond.in" && password == "pass123" then
      Ok("OTP sent to " + email)
    else if email == "demo@example.com" && password == "password" then
      Ok("OTP sent to " + email)
    else if email == "admin@raymond.in" && password == "@Pass123" then
      Ok("OTP sent to " + email)
    else
      Err(InvalidCredentials)
  }

  /** A known email does not log in with another account's password. */
  lemma LoginPairsNotMixed()
    ensures forall i, j :: 0 <= i < |Accounts| && 0 <= j < |Accounts| && i != j ==>
              Login(Accounts[i].0, Accounts[j].1) == Err(InvalidCredentials)
  {
    forall i, j | 0 <= i < |Accounts| && 0 <= j < |Accounts| && i != j
      ensures (Accounts[i].0, Accounts[j].1) !in Accounts
    {
      assert Accounts[0].0 != Accounts[1].0 && Accounts[1].0 != Accounts[2].0 && Accounts[0].0 != Accounts[2].0;
      assert Accounts[0].1 != Accounts[1].1 && Accounts[1].1 != Accounts[2].1 && Accounts[0].1 != Accounts[2].1;
    }
  }

  datatype Token = Token(accessToken: string, tokenType: string)

  const IssuedToken := Token("mock-jwt-token-xyz-123", "bearer")
  const InvalidOtp := HttpError(400, "Invalid OTP")

  /** `verify_otp`: the fixed token for the code "123456", whatever the email; otherwise 400. */
  function VerifyOtp(email: string, otp: string): (r: Result<Token, HttpError>)
    ensures r.Ok? <==> otp == "123456"
    ensures r == Ok(IssuedToken) || r == Err(InvalidOtp)
  {
    if otp == "123456" then Ok(IssuedToken) else Err(InvalidOtp)
  }

  /** The email plays no part in checking the code. */
  lemma VerifyOtpIgnoresEmail(a: string, b: string, otp: string)
    ensures VerifyOtp(a, otp) == VerifyOtp(b, otp)
  {
  }
}

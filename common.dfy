/** Values shared by every part of the clinic backend model: identifiers,
    optional values, the HTTP error statuses the endpoints raise, the three
    roles, and the two string helpers the endpoints rely on (Python's
    truthiness of an optional id and `str.lower()` on e-mail addresses). */
module Common {

  /** Row identifiers: the 36-character uuid strings of every table. */
  type Id = string

  datatype Option<+T> = None | Some(value: T) {
    /** `data.get(k, default)` and `x or default` for a present value. */
    function GetOr(default: T): T {
      match this
      case Some(v) => v
      case None => default
    }
  }

  /** The HTTP error statuses raised with `HTTPException` (and the 422 that
      request validation answers, and the 500 of a failing database call). */
  datatype HttpError = BadRequest | Unauthorized | Forbidden | NotFound | Unprocessable | ServerError {
    function Code(): (c: int)
      ensures 400 <= c < 600
      ensures c < 500 <==> !ServerError?
    {
      match this
      case BadRequest => 400
      case Unauthorized => 401
      case Forbidden => 403
      case NotFound => 404
      case Unprocessable => 422
      case ServerError => 500
    }
  }

  /** The result of an endpoint: the value it returns, or the error it raises. */
  datatype Outcome<+T> = Ok(value: T) | Fail(error: HttpError)

  /** `RoleEnum`: every user has exactly one of these. */
  datatype Role = PatientRole | DoctorRole | AdminRole

  /** Python's truthiness of an optional string: `None` and `""` are false. */
  predicate Truthy(o: Option<string>) {
    o.Some? && o.value != ""
  }

  function LowerChar(c: char): (d: char)
    ensures 'A' <= c <= 'Z' ==> 'a' <= d <= 'z'
    ensures !('A' <= c <= 'Z') ==> d == c
  {
    if 'A' <= c <= 'Z' then (c as int + 32) as char else c
  }

  /** `str.lower()`, on the ASCII letters. */
  function Lower(s: string): (r: string)
    ensures |r| == |s|
    ensures forall i :: 0 <= i < |s| ==> r[i] == LowerChar(s[i])
    ensures forall i :: 0 <= i < |r| ==> !('A' <= r[i] <= 'Z')
  {
    seq(|s|, i requires 0 <= i < |s| => LowerChar(s[i]))
  }

  /** Lowering an already lowered address changes nothing, so the stored
      (lowered) e-mail is found again by a lookup that lowers its input. */
  lemma LowerIdempotent(s: string)
    ensures Lower(Lower(s)) == Lower(s)
  {
    var l := Lower(s);
    assert forall i :: 0 <= i < |l| ==> LowerChar(l[i]) == l[i];
  }

  function Min(a: int, b: int): (m: int)
    ensures m <= a && m <= b && (m == a || m == b)
  {
    if a <= b then a else b
  }

  function Max(a: int, b: int): (m: int)
    ensures m >= a && m >= b && (m == a || m == b)
  {
    if a >= b then a else b
  }

  /** The `setattr` loop of a partial update: every field the patch names
      takes the patched value (an explicit null included), every other field
      keeps its value, and no field appears or disappears otherwise. */
  method ApplyFieldPatch<F, V>(fields: map<F, V>, patch: map<F, V>) returns (r: map<F, V>)
    ensures r.Keys == fields.Keys + patch.Keys
    ensures forall f :: f in patch ==> r[f] == patch[f]
    ensures forall f :: f in fields && f !in patch ==> r[f] == fields[f]
  {
    r := fields;
    var rest := patch.Keys;
    while rest != {}
      invariant rest <= patch.Keys
      invariant r.Keys == fields.Keys + (patch.Keys - rest)
      invariant forall f :: f in patch && f !in rest ==> r[f] == patch[f]
      invariant forall f :: f in fields && f !in patch.Keys - rest ==> r[f] == fields[f]
      decreases rest
    {
      var f :| f in rest;
      r := r[f := patch[f]];
      rest := rest - {f};
    }
  }
}

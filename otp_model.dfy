/** The OTP schema (models/otp.model.js): an optional user reference and
    three required fields. Dates are integer milliseconds. A verified record
    keeps its place in the collection with `otp` and `otpExpiration` cleared. */
module OtpModel {
  import opened Common

  datatype Otp = Otp(
    user: Option<Id>,
    phone: string,
    otp: Option<string>,
    otpExpiration: Option<int>)

  /** Mongoose's `required` validator on the three required paths (an empty
      string fails `required` for a String path). */
  predicate RequiredPresent(o: Otp) {
    Truthy(o.phone) && o.otp.Some? && Truthy(o.otp.value) && o.otpExpiration.Some?
  }

  /** `OTP.create({ phone, otp, otpExpiration })`: validation runs first, so
      a missing phone or code creates nothing. */
  function CreateOtp(phone: string, code: string, expiration: int): (r: Result<Otp>)
    ensures r.Ok? <==> Truthy(phone) && Truthy(code)
    ensures r.Ok? ==> RequiredPresent(r.value) && r.value.user.None?
    ensures r.Ok? ==> r.value.phone == phone && r.value.otp == Some(code) && r.value.otpExpiration == Some(expiration)
  {
    var o := Otp(None, phone, Some(code), Some(expiration));
    if RequiredPresent(o) then Ok(o) else Fail(ServerError)
  }
}

/** backend/accounts/sms_service.py: one-time codes kept in a shared cache
    under the key "otp_" + phone, checked once and then deleted. The random
    draw of `generate_otp` and the outcome of the SMS delivery are
    parameters; cache expiry is not modelled. */
module SmsService {
  import opened Common
  import LoyaltyViews

  /** The range of `random.randint` in `generate_otp`. */
  const OtpLow := 100000
  const OtpHigh := 999999

  function Pow10(k: nat): (p: nat)
    ensures p >= 1
  {
    if k == 0 then 1 else 10 * Pow10(k - 1)
  }

  /** A number with k + 1 digits is spelled with k + 1 characters. */
  lemma {:induction false} DecimalLength(n: nat, k: nat)
    requires Pow10(k) <= n < Pow10(k + 1)
    ensures |NatDecimal(n)| == k + 1
  {
    if k > 0 {
      assert Pow10(k) == 10 * Pow10(k - 1);
      assert Pow10(k + 1) == 10 * Pow10(k);
      assert Pow10(k - 1) <= n / 10 < Pow10(k);
      DecimalLength(n / 10, k - 1);
    }
  }

  /** `generate_otp`: the decimal spelling of the draw, a six-digit code
      that reads back as the number drawn. */
  function GenerateOtp(draw: int): (code: string)
    requires OtpLow <= draw <= OtpHigh
    ensures |code| == 6
    ensures forall i :: 0 <= i < |code| ==> IsDigit(code[i])
    ensures LoyaltyViews.ParseInt(code) == Some(draw)
  {
    assert Pow10(5) == 100000 && Pow10(6) == 1000000;
    DecimalLength(draw, 5);
    LoyaltyViews.ParseDecimal(draw);
    NatDecimal(draw)
  }

  /** The cache key of a phone number. */
  function OtpKey(phone: string): (key: string)
    ensures |key| == |phone| + 4 && key[4..] == phone
  {
    "otp_" + phone
  }

  /** Different phones never share a cache entry. */
  lemma OtpKeyInjective(a: string, b: string)
    requires OtpKey(a) == OtpKey(b)
    ensures a == b
  {
    assert a == OtpKey(a)[4..];
  }

  /** `stored_otp and stored_otp == otp`: a stored, non-empty code equal to
      the input. */
  predicate Matches(stored: Option<string>, otp: string)
  {
    stored.Some? && stored.value != "" && stored.value == otp
  }

  function Lookup(entries: map<string, string>, phone: string): (r: Option<string>)
    ensures r.Some? <==> OtpKey(phone) in entries
    ensures r.Some? ==> r.value == entries[OtpKey(phone)]
  {
    if OtpKey(phone) in entries then Some(entries[OtpKey(phone)]) else None
  }

  /** The cache after `store_otp`. */
  function Store(entries: map<string, string>, phone: string, otp: string): (r: map<string, string>)
    ensures Lookup(r, phone) == Some(otp)
    ensures forall p :: p != phone ==> Lookup(r, p) == Lookup(entries, p)
  {
    var r := entries[OtpKey(phone) := otp];
    forall p | p != phone
      ensures Lookup(r, p) == Lookup(entries, p)
    {
      if OtpKey(p) == OtpKey(phone) {
        OtpKeyInjective(p, phone);
      }
    }
    r
  }

  /** The answer and the cache after `verify_otp`: a match deletes the
      entry, a mismatch changes nothing. */
  function Verify(entries: map<string, string>, phone: string, otp: string): (r: (bool, map<string, string>))
    ensures r.0 <==> Matches(Lookup(entries, phone), otp)
    ensures !r.0 ==> r.1 == entries
    ensures r.0 ==> Lookup(r.1, phone).None?
    ensures forall p :: p != phone ==> Lookup(r.1, p) == Lookup(entries, p)
  {
    if Matches(Lookup(entries, phone), otp) then
      var r := entries - {OtpKey(phone)};
      forall p | p != phone
        ensures Lookup(r, p) == Lookup(entries, p)
      {
        if OtpKey(p) == OtpKey(phone) {
          OtpKeyInjective(p, phone);
        }
      }
      (true, r)
    else (false, entries)
  }

  /** A stored code verifies once; the same code then fails. */
  lemma StoredCodeVerifiesOnce(entries: map<string, string>, phone: string, otp: string)
    requires otp != ""
    ensures var first := Verify(Store(entries, phone, otp), phone, otp);
            first.0 && !Verify(first.1, phone, otp).0
  {
  }

  /** Storing a new code replaces the previous one: the old code no longer
      verifies. */
  lemma StoreOverwrites(entries: map<string, string>, phone: string, older: string, newer: string)
    requires older != newer
    ensures !Verify(Store(Store(entries, phone, older), phone, newer), phone, older).0
  {
  }

  /** A failed attempt leaves the right code usable. */
  lemma WrongCodeKeepsEntry(entries: map<string, string>, phone: string, otp: string, wrong: string)
    requires otp != "" && wrong != otp
    ensures var bad := Verify(Store(entries, phone, otp), phone, wrong);
            !bad.0 && Verify(bad.1, phone, otp).0
  {
  }

  /** The outcome of `send_sms`. */
  datatype Delivery = Delivered | Undelivered(error: string)

  /** The dictionary `send_activation_sms` returns (the messages are not
      modelled): the code only on success, the error only on failure. */
  datatype ActivationReply = ActivationReply(success: bool, otpCode: Option<string>, error: Option<string>)

  /** The shared cache. */
  class OtpCache {
    var entries: map<string, string>

    constructor()
      ensures entries == map[]
    {
      entries := map[];
    }

    /** `store_otp`. */
    method StoreOtp(phone: string, otp: string)
      modifies this`entries
      ensures entries == Store(old(entries), phone, otp)
    {
      entries := entries[OtpKey(phone) := otp];
    }

    /** `verify_otp`. */
    method VerifyOtp(phone: string, otp: string) returns (ok: bool)
      modifies this`entries
      ensures (ok, entries) == Verify(old(entries), phone, otp)
    {
      var key := OtpKey(phone);
      var stored := if key in entries then Some(entries[key]) else None;
      if stored.Some? && stored.value != "" && stored.value == otp {
        entries := entries - {key};
        return true;
      }
      return false;
    }

    /** MelipayamakSMSService.verify_otp: the same check, reported through
        the `success` flag of its reply. */
    method VerifyOtpReply(phone: string, otp: string) returns (success: bool)
      modifies this`entries
      ensures (success, entries) == Verify(old(entries), phone, otp)
    {
      success := VerifyOtp(phone, otp);
    }

    /** `send_activation_sms`: the code is stored before delivery is tried,
        so it stays stored (and verifiable) even when delivery fails. */
    method SendActivationSms(phone: string, draw: int, delivery: Delivery) returns (reply: ActivationReply)
      requires OtpLow <= draw <= OtpHigh
      modifies this`entries
      ensures entries == Store(old(entries), phone, GenerateOtp(draw))
      ensures reply.success <==> delivery.Delivered?
      ensures delivery.Delivered? ==> reply.otpCode == Some(GenerateOtp(draw)) && reply.error.None?
      ensures delivery.Undelivered? ==> reply.otpCode.None? && reply.error == Some(delivery.error)
    {
      var otp := GenerateOtp(draw);
      StoreOtp(phone, otp);
      if delivery.Delivered? {
        reply := ActivationReply(true, Some(otp), None);
      } else {
        reply := ActivationReply(false, None, Some(delivery.error));
      }
    }
  }

  /** Whatever the delivery outcome, the code just sent verifies. */
  lemma SentCodeVerifies(entries: map<string, string>, phone: string, draw: int)
    requires OtpLow <= draw <= OtpHigh
    ensures Verify(Store(entries, phone, GenerateOtp(draw)), phone, GenerateOtp(draw)).0
  {
  }
}
